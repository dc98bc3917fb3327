# 5G service-graph construction, modelled in Dafny

The repository places the components of a 5G service on a datacenter. The model covers three parts:

- **The physical topology** (`topology_class.py`). It has *locations* with a type tag, optional resources and an id drawn from a counter shared by all locations. It has *links* between locations, with a parameter dictionary and a `two_way` flag. The *topology* object holds the two lists and answers queries over them. `key_exists` is a small nested-dictionary lookup.
- **The layered service graph** (`make_service_graph.make_graph`). For a service with n components it builds these segments:
  - an entry layer that copies the topology with links kept;
  - an exit layer that copies it with links reversed;
  - n-1 inter-component layers. Each has "out" and "in" copies of the lower tiers, the original upper tier as "mid", and zero-cost shortcuts from each out copy to its in copy;
  - for each component, one `dummy` location per compute node, joined by zero-cost edges to the neighbouring layers.

  Every node and edge list is then concatenated, in segment order.
- **Service bookkeeping** (`service_class.py`):
  - components with ids from their own counter;
  - services that own a map from topology name to service graph;
  - the start and end node scans of a service graph;
  - the naming of service paths, which draws on the location counter.

Modules:

- `Wrappers`: `Option` and `Result`.
- `Seqs`: concatenation and the nested-loop shapes `Row`, `Pairs` and `ConcatMap`, with their membership and append lemmas.
- `Locations`: the `IdCounter` class, location types, the `Location` datatype, the constructor's validation, and `copy`.
- `Links`: the `Link` datatype, its parameter setters and copies.
- `Topology`: filters and scans over the lists, the `Topology` class, and `key_exists`.
- `ServiceGraphBuilder`: `make_graph` written as loops (`MakeGraph` and its helper methods). Each method is proved equal to a specification function. The whole build is proved equal to `MakeGraphSpec`, which returns the result and the counter value after it.
- `ServiceGraphProperties`: what the built graph contains, stated over `MakeGraphSpec`.
- `ServiceGraphShape`: the shape of the built graph. Its nodes are well formed, its edges run between its nodes, and within each layer ids tell the nodes apart.
- `Services`: components, service graphs, services and service paths.

Identity follows the source's two notions. Comparisons that are object identity in the source (`l.source == x`, `l.sink == i`) compare location ids. Description matching (make_service_graph.py:22) compares descriptions. Every location is made by the location constructor, which draws its id from one shared counter. So `MakeGraph` and `AddGraph` require that the topology's ids tell its locations apart and were all drawn from the counter. Under that condition, `JoinTestsByIdentity` proves that the join loops' tests by id agree with the source's tests by identity, on every location of every layer.

## Model

| member | source | states |
|---|---|---|
| Locations.IdCounter.Draw | topology_class.py:34-41 | the drawn id is the counter's value, strictly greater than every id drawn before, and the counter advances by one |
| Locations.ParseType | topology_class.py:44-45 | exactly the six tags gateway, super_spine, spine, leaf, node and dummy are accepted, each naming its own type |
| Locations.ParseTypeName | topology_class.py:44-52 | a stored type tag parses back to the same type |
| Locations.CheckLocation | topology_class.py:44-51 | construction succeeds iff the tag is one of the six and resources are present exactly when the tag is "node"; each failure names its cause |
| Locations.NewLocation | topology_class.py:40-52 | the id is drawn before validation, so a rejected location still advances the counter; a successful one stores the given fields and is well formed |
| Locations.CopyOf | topology_class.py:60-61 | a copy keeps description, type and resources, takes the new id and drops the cost |
| Locations.Copy | topology_class.py:60-61 | `copy` draws a fresh id and returns that copy |
| Locations.Location.Cpu | topology_class.py:63-68 | a node's "cpu" resource, and an error for any location that is not a node |
| Locations.Location.Ram | topology_class.py:70-75 | a node's "ram" resource, and an error for any location that is not a node |
| Links.Link.Description | topology_class.py:89 | the description is "(", the source's description, ", ", the sink's description and ")", in that order |
| Links.Link.Parameter | topology_class.py:135-145 | a property reads its parameter key, and fails exactly when the key is missing |
| Links.Link.SetLatency | topology_class.py:108-109 | latency reads back as set; every other parameter, both endpoints and the flag are unchanged |
| Links.Link.SetBandwidth | topology_class.py:111-112 | bandwidth reads back as set; every other parameter, both endpoints and the flag are unchanged |
| Links.Link.SetLinkCost | topology_class.py:114-115 | cost reads back as set; every other parameter, both endpoints and the flag are unchanged |
| Links.Link.CopyWithNewNodes | topology_class.py:96-97 | the new endpoints with the same parameters and flag |
| Links.CopyLink | topology_class.py:93-94 | `link.copy` always fails after its two endpoint copies have drawn two ids |
| Topology.LocationsByType | topology_class.py:192-194 | exactly the locations of the given type, never more than the list holds |
| Topology.LocationsByTypeAppend | topology_class.py:192-194 | filtering keeps list order: filtering a concatenation concatenates the filtered parts |
| Topology.GroupsOfShape | topology_class.py:196-206 | each kept group is non-empty and is the full filter of its type; the types are distinct, never dummy, and in tier order |
| Topology.GroupsOfMembers | topology_class.py:196-206 | the groups hold exactly the locations whose type is among the listed tiers |
| Topology.GroupingCons | topology_class.py:196-206 | a non-empty group of a type ranked below every kept type can be put in front of the kept groups |
| Topology.LocationsByTypesGroups | topology_class.py:196-206 | `getLocationsByTypes` returns the non-empty gateway, super_spine, spine, leaf and node groups in that order; together they hold exactly the locations that are not dummies |
| Topology.LocationsByTypesComplete | topology_class.py:196-206 | no non-empty tier is dropped |
| Topology.Outgoing | topology_class.py:208-209 | exactly the links whose source is the location |
| Topology.Incoming | topology_class.py:211-212 | exactly the links whose sink is the location |
| Topology.OutgoingByIdentity | topology_class.py:208-209 | when every link starts at one of a list of locations with distinct ids, no link leaves a listed location by id iff no link leaves that very location |
| Topology.IncomingByIdentity | topology_class.py:211-212 | when every link ends at one of a list of locations with distinct ids, no link enters a listed location by id iff no link enters that very location |
| Topology.Opposite | topology_class.py:215 | exactly the links running from the link's sink to its source |
| Topology.OpposingEdge | topology_class.py:214-222 | None iff no link runs the other way; the unique such link when there is one; an error iff two or more do |
| Topology.OpposingEdgeInvolution | topology_class.py:214-222 | the link opposing l has l as its opposing link, unless that lookup raises because several links oppose it |
| Topology.GetLocationByDescription | topology_class.py:169-174 | None iff no location has the description, and otherwise the last one that does |
| Topology.GetEdgeByLocations | topology_class.py:176-184 | None iff no link joins the two ids in either direction, and otherwise the last link that does |
| Topology.GetLocationByID | topology_class.py:232-237 | the first location with the id, or None (the source's False) iff there is none |
| Topology.Topology.constructor | topology_class.py:147-155 | a new topology stores the given name and lists; built from well-formed locations and link endpoints, it is valid |
| Topology.Topology.SetName | topology_class.py:157-158 | only the name changes |
| Topology.Topology.AddLink | topology_class.py:224-227 | exactly one one-way link with the given endpoints and parameters is appended; nothing else changes; a valid topology stays valid |
| Topology.Topology.AddLocation | topology_class.py:229-230 | exactly one location is appended; nothing else changes; a valid topology stays valid |
| Topology.Topology.MakeCopy | topology_class.py:160-161 | succeeds iff the topology has no links, since copying any link fails after drawing two ids |
| Topology.Topology.AddArtificialSource | topology_class.py:291-296 | always fails on the rejected type tag, after drawing one id |
| Topology.Topology.AddArtificialSink | topology_class.py:298-303 | always fails on the rejected type tag, after drawing one id |
| Topology.WalkMatchesLookup | topology_class.py:25-31 | the key walk returns True exactly when the nested lookup of every key succeeds, and False only when it fails |
| Topology.KeyExists | topology_class.py:18-31 | fails on a non-dictionary or an empty key list; otherwise the result is the key walk, and it is True iff every key is found in turn |
| ServiceGraphBuilder.CopyAll | make_service_graph.py:15-17 | one copy per location |
| ServiceGraphBuilder.OutInCopies | make_service_graph.py:61-67 | one out copy and one in copy per lower-tier location |
| Topology.GroupTypes | topology_class.py:196-206 | every kept group type is one of the listed tiers |
| ServiceGraphBuilder.CopyLayers | make_service_graph.py:15-17 | the copy loop returns the specified copies and advances the counter by their number |
| ServiceGraphBuilder.CopyOutIn | make_service_graph.py:61-67 | the interleaved out/in copy loop returns the specified copies and advances the counter by two per location |
| ServiceGraphBuilder.MakeDummies | make_service_graph.py:130-133 | the dummy loop returns the specified dummy locations and advances the counter by their number |
| ServiceGraphBuilder.CopyEdgePair | make_service_graph.py:22-28 | one source/sink pair yields the cost-1 copy of the link when the descriptions match, plus its reverse when the link is two-way, and nothing otherwise |
| ServiceGraphBuilder.CopyEdgesFrom | make_service_graph.py:20-28 | the inner loop over sinks returns the copies for one source, in sink order |
| ServiceGraphBuilder.CopyEdges | make_service_graph.py:19-29 | the source-by-sink edge copy loop returns the specified edges |
| ServiceGraphBuilder.LayerEdges | make_service_graph.py:19-29 | the edge loop of an outer layer returns the specified edges |
| ServiceGraphBuilder.InterEdges | make_service_graph.py:73-116 | the four edge loops of an inter layer return the specified edges |
| ServiceGraphBuilder.AddShortcuts | make_service_graph.py:118-121 | the shortcut loop returns the specified edges |
| ServiceGraphBuilder.JoinPre | make_service_graph.py:136-142 | the pre-join loop returns the specified edges |
| ServiceGraphBuilder.JoinPost | make_service_graph.py:145-151 | the post-join loop returns the specified edges |
| ServiceGraphBuilder.BuildOuterLayer | make_service_graph.py:9-50 | the entry or exit layer is the specified segment, and the counter advances by one id per grouped location |
| ServiceGraphBuilder.BuildInterLayer | make_service_graph.py:52-124 | an inter layer fails iff fewer than two tiers are populated; otherwise it is the specified segment |
| ServiceGraphBuilder.BuildLayer | make_service_graph.py:9-124 | layer k is the entry, exit or an inter layer as specified, fails iff it is an inter layer with fewer than two populated tiers, and draws the ids its copies need |
| ServiceGraphBuilder.ExtendLayers | make_service_graph.py:9-124 | one turn of the layer loop appends layer k, or fails iff layer 1 is an inter layer and there is no mid tier, having then drawn one id per grouped location |
| ServiceGraphBuilder.FailedLayerIds | make_service_graph.py:9-71 | when the first inter layer fails, only the entry layer's copies have drawn ids |
| ServiceGraphBuilder.BuildLayers | make_service_graph.py:9-124 | the layer loop builds layers 0..n as specified, or fails iff an inter layer is needed and there is no mid tier |
| ServiceGraphBuilder.BuildJoin | make_service_graph.py:127-153 | one component's join segment is as specified and draws one id per dummy |
| ServiceGraphBuilder.BuildJoins | make_service_graph.py:127-153 | the join loop builds one specified segment per component |
| ServiceGraphBuilder.Concatenate | make_service_graph.py:155-160 | the node and edge lists are the concatenation of every segment's lists, in order |
| ServiceGraphBuilder.MakeGraph | make_service_graph.py:3-160 | `make_graph` returns the specified graph or error and leaves the location counter where the specification says; it requires well-formed locations whose ids are distinct and were drawn from the counter |
| ServiceGraphProperties.CopyAllAt | make_service_graph.py:15-17 | copy j of the entry or exit layer is location j with id next+j |
| ServiceGraphBuilder.OutInCopiesAt | make_service_graph.py:61-67 | out copy j has id next+2j and in copy j has id next+2j+1 |
| ServiceGraphBuilder.OutInCopiesAppend | make_service_graph.py:61-67 | copying lower tiers a then b gives a's out and in copies followed by b's, b's numbered from where a's stopped |
| ServiceGraphBuilder.CopyAllAppend | make_service_graph.py:15-17 | copying a then b gives a's copies followed by b's, b's numbered from where a's stopped |
| ServiceGraphProperties.DummyNodesAt | make_service_graph.py:127-133 | one dummy per node-type location, in list order, described `<node>_<component>`, with consecutive fresh ids |
| ServiceGraphProperties.CopiedFrom | make_service_graph.py:19-29 | every copied edge comes from a source/sink pair that matches the link by description |
| ServiceGraphProperties.NotCopiedFrom | make_service_graph.py:19-29 | an edge that was not produced is no copy of any matching source/sink pair |
| ServiceGraphProperties.CopyEdgesMember | make_service_graph.py:19-29 | an edge is produced iff some source/sink pair matches the link by description; it is then the cost-1 copy, or its reverse when the link is two-way |
| ServiceGraphProperties.LayerEdgesMember | make_service_graph.py:19-29 | the edges of a layer are exactly the copies of some link between layer nodes matching by description |
| ServiceGraphProperties.ShortcutsMember | make_service_graph.py:118-121 | a shortcut exists iff an out and an in copy share a description; it is then a zero-cost one-way link between them |
| ServiceGraphProperties.InterEdgesSound | make_service_graph.py:73-116 | every inter-layer edge is an out-out or out-mid copy against the link, or an in-in or mid-in copy with it |
| ServiceGraphProperties.InterEdgesComplete | make_service_graph.py:73-116 | every such copy is an inter-layer edge |
| ServiceGraphProperties.CopiedCost | make_service_graph.py:24-28 | every copied edge costs 1 and joins the two tiers it was copied between |
| ServiceGraphProperties.EntryLayer | make_service_graph.py:9-30 | the entry layer holds one fresh copy of each grouped location; its edges are exactly the cost-1 copies of each link in its own direction, plus the reverse for two-way links |
| ServiceGraphProperties.ExitLayer | make_service_graph.py:32-50 | the exit layer holds fresh copies again; its edges are exactly the cost-1 copies with each link reversed, plus the forward edge for two-way links |
| ServiceGraphProperties.InterLayer | make_service_graph.py:52-124 | an inter layer's nodes are the out copies, then the uncopied upper tier, then the in copies; its edges are exactly the four copy kinds and the shortcuts; each costs 1, or 0 for a one-way shortcut between same-described out and in copies |
| ServiceGraphProperties.CopyShortcutRow | make_service_graph.py:118-121 | with distinct descriptions, out copy i has exactly one shortcut, to in copy i |
| ServiceGraphProperties.ShortcutsExact | make_service_graph.py:118-121 | with distinct descriptions, out copy j gets exactly one shortcut, to in copy j, in order |
| ServiceGraphProperties.PreJoinMember | make_service_graph.py:136-142 | a layer copy is joined to a dummy iff the dummy is `<copy>_<component>` and the copy has no outgoing edge in its layer |
| ServiceGraphProperties.PostJoinMember | make_service_graph.py:145-151 | a dummy is joined to a next-layer copy iff the dummy is `<copy>_<component>` and the copy has no incoming edge in its layer |
| ServiceGraphProperties.JoinEdges | make_service_graph.py:127-153 | the join segment's edges are exactly the pre- and post-joins; each costs 0, is one-way and touches a dummy |
| ServiceGraphProperties.LayersUpToAt | make_service_graph.py:9-124 | layer k is built with the counter value left by layers 0..k-1 |
| ServiceGraphBuilder.LayerStartStep | make_service_graph.py:9-124 | layer k+1 starts drawing ids where layer k stopped: the entry and exit layers draw one id per grouped location, an inter layer two per lower-tier location |
| ServiceGraphBuilder.LayersUpToSnoc | make_service_graph.py:9-124 | building one more layer appends exactly that layer, built from where the counter has got to |
| ServiceGraphBuilder.JoinStartStep | make_service_graph.py:127-133 | component i+1 starts drawing dummy ids where component i stopped |
| ServiceGraphBuilder.DummyNodesCount | make_service_graph.py:127-133 | a component gets exactly one dummy per node-type location |
| ServiceGraphBuilder.JoinsUpToSnoc | make_service_graph.py:127-153 | joining one more component appends exactly its join segment |
| ServiceGraphProperties.JoinsUpToAt | make_service_graph.py:127-153 | join segment i joins layers i and i+1 and starts drawing ids after the i earlier components' dummies |
| ServiceGraphProperties.AllAppend | make_service_graph.py:155-160 | concatenating segment lists distributes over appending segments |
| ServiceGraphProperties.AllMember | make_service_graph.py:155-160 | a node or edge is in the result iff some segment holds it |
| ServiceGraphProperties.LayersCount | make_service_graph.py:9-124 | the layers hold C nodes for n = 0, and otherwise 2C + (n-1)(2L+M) nodes, where C counts grouped locations, L lower-tier ones and M upper-tier ones; copies draw C, or 2C + (n-1)·2L, ids |
| ServiceGraphProperties.JoinsCount | make_service_graph.py:127-153 | the join segments hold one dummy per node-type location per component |
| ServiceGraphProperties.TwoGroupsTwoTypes | topology_class.py:196-206 | two non-empty tiers mean two distinct non-dummy types are present |
| ServiceGraphProperties.TwoTypesTwoGroups | topology_class.py:196-206 | two distinct non-dummy types present mean two non-empty tiers |
| ServiceGraphProperties.MakeGraphFails | make_service_graph.py:61-71 | `make_graph` fails iff there are two or more components and fewer than two non-dummy types; on failure the counter has advanced by the entry-layer copies |
| ServiceGraphProperties.MakeGraphMembers | make_service_graph.py:155-160 | on success there are 2n+1 segments, and the graph holds exactly the nodes and edges of some segment |
| ServiceGraphProperties.SegmentsLayers | make_service_graph.py:9-124 | segment k (k ≤ n) is layer k |
| ServiceGraphProperties.SegmentsJoins | make_service_graph.py:127-153 | segment n+1+i is the join segment of component i between layers i and i+1, as built by the layer loop; `SegmentsLayers` says these are segments i and i+1 |
| ServiceGraphProperties.MakeGraphCounts | make_service_graph.py:3-160 | the graph has (n = 0 ? C : 2C + (n-1)(2L+M)) + n·N nodes and draws (n = 0 ? C : 2C + (n-1)·2L) + n·N ids, where N counts node-type locations |
| ServiceGraphProperties.ReferenceByType | topology-test.py:13-19 | filtering the example topology by type |
| ServiceGraphProperties.ReferenceLeaves | topology-test.py:13-19 | the leaves of the example topology are its two leaf switches, in order |
| ServiceGraphProperties.ReferenceNodes | topology-test.py:13-19 | the nodes of the example topology are its two compute nodes, in order |
| ServiceGraphProperties.ReferenceTiers | topology-test.py:42 | the example topology groups into gateway, spine, leaf and node tiers |
| ServiceGraphProperties.ReferenceGraphSize | topology-test.py:13-45 | for the six-location example topology and two components, `make_graph` succeeds with 25 nodes and draws 24 ids |
| ServiceGraphShape.GroupedFromTopology | topology_class.py:196-206 | well-formedness carries over from the topology's locations to the grouped tiers, and so do distinct ids drawn before the build |
| ServiceGraphShape.OuterShape | make_service_graph.py:9-50 | the entry and exit layers' edges run between their copies; the copies have distinct ids, and are well formed when the grouped locations are |
| ServiceGraphShape.InterClosed | make_service_graph.py:52-124 | every edge of an inter layer runs between two of its nodes |
| ServiceGraphShape.InterIds | make_service_graph.py:52-71 | ids tell apart an inter layer's out copies, mid tier and in copies, when they tell the mid tier apart and it was drawn before the copies |
| ServiceGraphShape.InterWellFormed | make_service_graph.py:52-71 | an inter layer's nodes are well formed when the grouped locations are |
| ServiceGraphShape.InterleavedIds | make_service_graph.py:61-67 | out copies numbered next+2j, in copies next+2j+1 and older locations that ids tell apart are all told apart by ids |
| ServiceGraphShape.LayerShape | make_service_graph.py:9-124 | layer k's edges run between its nodes; its nodes are well formed, and told apart by ids, when the grouped locations are |
| ServiceGraphShape.MakeGraphLayerShape | make_service_graph.py:9-124 | in a build that succeeds, layer k's edges run between its nodes; its nodes are well formed when the topology's are, and told apart by ids when the topology's ids are distinct and drawn before the build |
| ServiceGraphShape.JoinShape | make_service_graph.py:127-153 | a join segment's dummies are well formed, and each edge runs from the layer before to a dummy or from a dummy to the layer after |
| ServiceGraphShape.JoinSegmentShape | make_service_graph.py:127-153 | segment n+1+i has well-formed dummies and edges from layer i into it or from it into layer i+1 |
| ServiceGraphShape.SegmentShape | make_service_graph.py:3-160 | every segment's nodes are well formed, and each of its edges runs between nodes of some segments |
| ServiceGraphShape.MakeGraphValid | make_service_graph.py:3-160 | from well-formed locations, `make_graph` builds a graph whose nodes are well formed and whose edges run between its nodes |
| ServiceGraphShape.JoinTestsByIdentity | make_service_graph.py:136-151 | when the topology's ids are distinct and drawn before the build, "no edge of the layer leaves (enters) x" holds by id iff it holds by identity, for every location x of every layer |
| Services.Component.RequiredCpu | service_class.py:32-34 | the "cpu" requirement, or a failure naming the key iff it is missing |
| Services.Component.RequiredRam | service_class.py:36-38 | the "ram" requirement, or a failure naming the key iff it is missing |
| Services.NewComponent | service_class.py:15-24 | a component takes a fresh id from the component counter, greater than all earlier ones |
| Services.StartNode | service_class.py:83-87 | the first location that is the sink of no link; None iff every location has an incoming link |
| Services.EndNode | service_class.py:89-93 | the first location that is the source of no link; None iff every location has an outgoing link |
| Services.NatToString | service_class.py:99 | `str(n)` is a non-empty string of decimal digits without a leading zero |
| Services.NatToStringRoundTrip | service_class.py:99 | reading `str(n)` back as digits gives n |
| Services.PathNamesDistinct | service_class.py:95-101 | two paths with the same base name and different counter values get different names |
| Services.NewServicePath | service_class.py:95-101 | the name is the base name followed by a number drawn from the location counter, which advances by one |
| Services.ServiceGraph.constructor | service_class.py:72-75 | a new service graph holds the given topology, which is valid, and no paths |
| Services.ServiceGraph.AddPath | service_class.py:77-81 | exactly one path is appended; the catalogue only grows |
| Services.ServiceGraph.GetStartNode | service_class.py:83-87 | None iff every location of the graph has an incoming link; otherwise the first location of the graph, in list order, with none |
| Services.ServiceGraph.GetEndNode | service_class.py:89-93 | None iff every location of the graph has an outgoing link; otherwise the first location of the graph, in list order, with none |
| Services.Service.constructor | service_class.py:45-51 | a new service stores its fields, and has no graphs and no paths |
| Services.Service.AddComponents | service_class.py:56-57 | exactly one component is appended at the end; description, throughput, latency, graphs and paths are unchanged |
| Services.BuiltGraphWellFormed | service_class.py:59-62 | what a successful `make_graph` builds from well-formed locations has well-formed nodes and link endpoints, so it can make a valid topology |
| Services.Service.AddGraph | service_class.py:59-62 | the graph stored under the topology name is a new valid topology named `<name>_<description>` holding exactly `make_graph`'s nodes and edges; only that map entry and the counter change; on failure nothing is stored |
| Services.Service.StoreGraph | service_class.py:62 | a new service graph of the given nodes and edges is stored under the key, replacing any earlier one; nothing else changes |
| Services.Service.GetGraph | service_class.py:64-69 | the graph stored under the topology's name, or None iff none was added |

## Left out

- `optimisation.py` and `gurobi_test.py` are not part of this model. They hold linear-programming and floating-point matrix code for an external solver. `optimisation.py` does not parse, and no column-generation, pricing or master-problem logic exists elsewhere.
- The test drivers are not modelled. The topology of topology-test.py is used only as the concrete example of `ReferenceGraphSize`, with its locations as parameters of the right types.
- Output is not modelled: `topology.plot`, `topology.print`, `pstnJSON`, `link.forJSON`, `service_graph.plot`, the messages printed by `addLink` (topology_class.py:227), `getLocationByID` (topology_class.py:236) and `getGraph`, `__str__` and the getters (`getName`, `getID`, `getSource`, `getSink`, `getLinks`, `getLocations`, `getComponents`, `getPaths`).
- Bandwidths, latencies, costs and resources are floats in the source. They are opaque integers here, and nothing numeric is proved about them. `inf` is the constant 10000, as in the source.
- Links.Link.SetLatency, SetBandwidth, SetLinkCost: they are modelled as functions returning the updated link value. A parameter dictionary shared by several link objects (aliasing) is therefore not captured. `make_graph` always deep-copies parameters before setting a cost, so it is unaffected.
- Object identity of locations is modelled as equality of ids. Ids come from a single counter, so distinct live locations have distinct ids. `MakeGraph` and `AddGraph` require this of the topology. `GetStartNode` and `GetEndNode` compare ids as well, and `IncomingByIdentity` and `OutgoingByIdentity` state when that agrees with identity.
- The source's constructors keep the caller's list objects, so `addLocation` and `addComponents` also change a list the caller still holds. The model stores sequence values, so that sharing is not captured.
- Topology.Topology.constructor, Topology.Topology.AddLink, Topology.Topology.AddLocation and Services.ServiceGraph.constructor require well-formed locations, which the source does not check. Every location object the source can create passed the location constructor's checks, so no reachable call is excluded.
- Topology.Value: the nested dictionary of `key_exists` has only dictionaries and scalar leaves. Indexing a non-dictionary is an error, like the source's uncaught TypeError; other Python containers are not modelled.
- `getSwitches` filters on the type "switch", which no location can have, so it always returns an empty list; it is not modelled separately. `getNodes` is `LocationsByType(locs, Node)`.
- Services.ServicePath: `times_traversed` and `component_assignment` are stored as given. Their shapes (a sequence of counts, a map to sequences) are chosen here; the source never inspects them.
- ServiceGraphProperties.ShortcutsExact: states "exactly one shortcut per out copy" only when lower-tier descriptions are distinct. With repeated descriptions the source makes one shortcut per matching pair, and `ShortcutsMember` states that general case.
- Services.Service.AddGraph: when `make_graph` raises, the model returns a failure and leaves the graph map unchanged. The exception itself is not modelled.
- The location counter and the component counter are explicit `IdCounter` objects passed to the operations that draw from them, rather than class attributes.
