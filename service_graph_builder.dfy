/**
 * `make_graph` of make_service_graph.py: the layered service graph of a service over a topology.
 *
 * The graph is built from segments: layer 0 (entry), layers 1 .. n-1 (between consecutive
 * components), layer n (exit), then one segment per component holding its dummy assignment
 * locations and the edges joining them to the layers on either side. Every location it
 * creates draws a fresh id from the location counter, in the order the source creates them.
 */
module ServiceGraphBuilder {
  import opened Wrappers
  import opened Seqs
  import opened Locations
  import opened Links
  import opened Topology

  /** One entry of `graph_segments`: its node list and edge list. */
  datatype Segment = Segment(nodes: seq<Location>, edges: seq<Link>)

  /** `layers[1]` does not exist: fewer than two non-empty tiers and at least two components. */
  datatype BuildError = NoMidTier

  /** The outcome of `make_graph` and the location counter's value afterwards. */
  datatype Build = Build(result: Result<Segment, BuildError>, next: nat)

  /** Parameters of the shortcut and assignment edges: bandwidth `inf`, latency 0, cost 0. */
  const ZeroCostParameters: map<string, Num> := map["bandwidth" := Inf, "latency" := 0, "cost" := 0]

  /** `link(source, sink, {"bandwidth": inf, "latency": 0, "cost": 0}, two_way=False)`. */
  function ZeroCostLink(source: Location, sink: Location): Link
  {
    Link(source, sink, ZeroCostParameters, false)
  }

  // ---------------------------------------------------------------------------
  // Copies of locations

  /** Copies of `locs`, made in order, the first drawing id `next`. */
  function CopyAll(locs: seq<Location>, next: nat): (r: seq<Location>)
    ensures |r| == |locs|
    decreases |locs|
  {
    if locs == [] then []
    else CopyAll(locs[..|locs| - 1], next) + [CopyOf(locs[|locs| - 1], next + |locs| - 1)]
  }

  /** The "out" and "in" copies of `locs`: each location is copied twice, out copy first. */
  function OutInCopies(locs: seq<Location>, next: nat): (r: (seq<Location>, seq<Location>))
    ensures |r.0| == |locs| && |r.1| == |locs|
    decreases |locs|
  {
    if locs == [] then ([], [])
    else
      var (outs, ins) := OutInCopies(locs[..|locs| - 1], next);
      var x := locs[|locs| - 1];
      (outs + [CopyOf(x, next + 2 * (|locs| - 1))], ins + [CopyOf(x, next + 2 * (|locs| - 1) + 1)])
  }

  /** The dummy locations `<node description>_<component>`, one per node of `locs`, in order. */
  function DummyNodes(locs: seq<Location>, component: string, next: nat): seq<Location>
    decreases |locs|
  {
    if locs == [] then []
    else
      var init := DummyNodes(locs[..|locs| - 1], component, next);
      var l := locs[|locs| - 1];
      if l.ltype == Node
      then init + [Location(next + |init|, l.description + "_" + component, Dummy, None, None)]
      else init
  }

  // ---------------------------------------------------------------------------
  // Edges

  /**
   * Whether physical link `e` is copied onto the pair (`s`, `t`): with the link's direction it
   * needs s ~ e.source and t ~ e.sink, against it s ~ e.sink and t ~ e.source (~ compares descriptions).
   */
  predicate Matches(e: Link, s: Location, t: Location, reversed: bool)
  {
    if reversed then e.source.description == t.description && e.sink.description == s.description
    else e.source.description == s.description && e.sink.description == t.description
  }

  /** `edge.copy_with_new_nodes(s, t)` followed by `setLinkCost(1)`. */
  function CostOne(e: Link, s: Location, t: Location): Link
  {
    e.CopyWithNewNodes(s, t).SetLinkCost(1)
  }

  /** The copy `s -> t` and, for a two-way link, also `t -> s`. */
  function EdgeCopies(e: Link, s: Location, t: Location): seq<Link>
  {
    [CostOne(e, s, t)] + (if e.twoWay then [CostOne(e, t, s)] else [])
  }

  /** What one iteration of an edge-copying double loop appends for the pair (`s`, `t`). */
  function CopyFn(e: Link, reversed: bool): (Location, Location) -> seq<Link>
  {
    (s: Location, t: Location) => if Matches(e, s, t, reversed) then EdgeCopies(e, s, t) else []
  }

  /** What the entry (reversed = false) or exit (reversed = true) layer adds for link `e`. */
  function LayerFn(nodes: seq<Location>, reversed: bool): Link -> seq<Link>
  {
    (e: Link) => Pairs(nodes, nodes, CopyFn(e, reversed))
  }

  /** What an inter-component layer adds for link `e`: out-out, in-in, out-mid, mid-in. */
  function InterFn(outs: seq<Location>, mid: seq<Location>, ins: seq<Location>): Link -> seq<Link>
  {
    (e: Link) =>
      Pairs(outs, outs, CopyFn(e, true)) + Pairs(ins, ins, CopyFn(e, false))
      + Pairs(outs, mid, CopyFn(e, true)) + Pairs(mid, ins, CopyFn(e, false))
  }

  /** The zero-cost edge from an out copy to an in copy of the same description. */
  function ShortcutFn(): (Location, Location) -> seq<Link>
  {
    (s: Location, t: Location) => if s.description == t.description then [ZeroCostLink(s, t)] else []
  }

  /** A location of layer i is joined to its dummy only if no edge of layer i leaves it. */
  function PreJoinFn(pre: Segment, component: string): (Location, Location) -> seq<Link>
  {
    (s: Location, d: Location) =>
      if d.description == s.description + "_" + component && Outgoing(pre.edges, s) == []
      then [ZeroCostLink(s, d)] else []
  }

  /** A dummy is joined to a location of layer i + 1 only if no edge of layer i + 1 enters it. */
  function PostJoinFn(post: Segment, component: string): (Location, Location) -> seq<Link>
  {
    (d: Location, t: Location) =>
      if d.description == t.description + "_" + component && Incoming(post.edges, t) == []
      then [ZeroCostLink(d, t)] else []
  }

  // ---------------------------------------------------------------------------
  // Segments

  /** Layer 0: a copy of every grouped location, each physical link copied with its direction. */
  function EntrySegment(layers: seq<seq<Location>>, links: seq<Link>, next: nat): Segment
  {
    var copies := CopyAll(Concat(layers), next);
    Segment(copies, ConcatMap(links, LayerFn(copies, false)))
  }

  /** Layer n: a copy of every grouped location, each physical link copied against its direction. */
  function ExitSegment(layers: seq<seq<Location>>, links: seq<Link>, next: nat): Segment
  {
    var copies := CopyAll(Concat(layers), next);
    Segment(copies, ConcatMap(links, LayerFn(copies, true)))
  }

  /** The tiers below the second one (`layers[2:]`, empty when there are fewer). */
  function LowerTiers(layers: seq<seq<Location>>): seq<Location>
  {
    if |layers| >= 2 then Concat(layers[2..]) else []
  }

  /** An inter-component layer: out copies, the original second tier (mid), in copies. */
  function InterSegment(layers: seq<seq<Location>>, links: seq<Link>, next: nat): Segment
    requires |layers| >= 2
  {
    var (outs, ins) := OutInCopies(LowerTiers(layers), next);
    var mid := layers[1];
    Segment(outs + mid + ins, ConcatMap(links, InterFn(outs, mid, ins)) + Pairs(outs, ins, ShortcutFn()))
  }

  /** No inter-component layer reads `layers[1]` unless it exists. */
  predicate HasMidTier(layers: seq<seq<Location>>, n: nat)
  {
    n < 2 || |layers| >= 2
  }

  /** Layer k of a service with n components, its copies drawing ids from `next`. */
  function LayerSegment(layers: seq<seq<Location>>, links: seq<Link>, n: nat, k: nat, next: nat): Segment
    requires k == 0 || k == n || |layers| >= 2
  {
    if k == 0 then EntrySegment(layers, links, next)
    else if k == n then ExitSegment(layers, links, next)
    else InterSegment(layers, links, next)
  }

  /** How many ids layer k draws. */
  function LayerIds(layers: seq<seq<Location>>, n: nat, k: nat): nat
  {
    if k == 0 || k == n then |Concat(layers)| else 2 * |LowerTiers(layers)|
  }

  /** How many of the inter layers 1 .. n-1 come before layer k. */
  function InterLayersBefore(n: nat, k: nat): nat
  {
    if k <= 1 || n <= 1 then 0 else if k < n then k - 1 else n - 1
  }

  /**
   * The counter value at which layer k starts drawing ids: after layers 0 .. k-1, that is
   * the entry layer, the inter layers before k and, once k is past it, the exit layer.
   */
  function LayerStart(layers: seq<seq<Location>>, n: nat, k: nat, next: nat): nat
  {
    next + (if k == 0 then 0 else |Concat(layers)|)
      + InterLayersBefore(n, k) * (2 * |LowerTiers(layers)|)
      + (if 0 < n < k then |Concat(layers)| else 0)
  }

  /** Layer k starts where layer k-1 stopped drawing. */
  lemma LayerStartStep(layers: seq<seq<Location>>, n: nat, k: nat, next: nat)
    requires k <= n
    ensures LayerStart(layers, n, k + 1, next) == LayerStart(layers, n, k, next) + LayerIds(layers, n, k)
  {
    var l := 2 * |LowerTiers(layers)|;
    if 0 < k < n {
      assert InterLayersBefore(n, k + 1) == InterLayersBefore(n, k) + 1;
      assert (InterLayersBefore(n, k) + 1) * l == InterLayersBefore(n, k) * l + l;
    }
  }

  /** Layers 0 .. k-1, each drawing its ids from where the previous ones left the counter. */
  function LayersUpTo(layers: seq<seq<Location>>, links: seq<Link>, n: nat, k: nat, next: nat): (r: seq<Segment>)
    requires k <= n + 1 && (k <= 1 || HasMidTier(layers, n))
    ensures |r| == k
  {
    seq(k, j requires 0 <= j < k => LayerSegment(layers, links, n, j, LayerStart(layers, n, j, next)))
  }

  /** Building one more layer appends it. */
  lemma LayersUpToSnoc(layers: seq<seq<Location>>, links: seq<Link>, n: nat, k: nat, next: nat)
    requires k < n + 1 && (k + 1 <= 1 || HasMidTier(layers, n))
    ensures LayersUpTo(layers, links, n, k + 1, next)
      == LayersUpTo(layers, links, n, k, next) + [LayerSegment(layers, links, n, k, LayerStart(layers, n, k, next))]
  {
    var longer := LayersUpTo(layers, links, n, k + 1, next);
    var shorter := LayersUpTo(layers, links, n, k, next);
    assert longer[..k] == shorter;
    assert longer == longer[..k] + [longer[k]];
  }

  /** The segment of component `component`: its dummies and their joins to layers i and i + 1. */
  function JoinSegment(locs: seq<Location>, component: string, pre: Segment, post: Segment, next: nat): Segment
  {
    var dummies := DummyNodes(locs, component, next);
    Segment(dummies, Pairs(pre.nodes, dummies, PreJoinFn(pre, component))
                     + Pairs(dummies, post.nodes, PostJoinFn(post, component)))
  }

  /** The counter value at which component i draws its dummies: i components before it, N ids each. */
  function JoinStart(locs: seq<Location>, i: nat, next: nat): nat
  {
    next + i * |LocationsByType(locs, Node)|
  }

  /** Component i starts where component i-1 stopped drawing. */
  lemma JoinStartStep(locs: seq<Location>, component: string, i: nat, next: nat)
    ensures JoinStart(locs, i + 1, next) == JoinStart(locs, i, next) + |DummyNodes(locs, component, JoinStart(locs, i, next))|
  {
    var d := |LocationsByType(locs, Node)|;
    DummyNodesCount(locs, component, JoinStart(locs, i, next));
    assert (i + 1) * d == i * d + d;
  }

  /** One dummy per location of type node. */
  lemma {:induction false} DummyNodesCount(locs: seq<Location>, component: string, next: nat)
    ensures |DummyNodes(locs, component, next)| == |LocationsByType(locs, Node)|
    decreases |locs|
  {
    if locs != [] {
      var init := locs[..|locs| - 1];
      var l := locs[|locs| - 1];
      DummyNodesCount(init, component, next);
      LocationsByTypeAppend(init, [l], Node);
      assert init + [l] == locs;
    }
  }

  /** Component segments 0 .. i-1, each drawing its dummies from where the previous ones left the counter. */
  function JoinsUpTo(locs: seq<Location>, components: seq<string>, layerSegs: seq<Segment>, i: nat, next: nat): (r: seq<Segment>)
    requires i <= |components| && i < |layerSegs|
    ensures |r| == i
  {
    seq(i, j requires 0 <= j < i => JoinSegment(locs, components[j], layerSegs[j], layerSegs[j + 1], JoinStart(locs, j, next)))
  }

  lemma JoinsUpToSnoc(locs: seq<Location>, components: seq<string>, layerSegs: seq<Segment>, i: nat, next: nat)
    requires i < |components| && i + 1 < |layerSegs|
    ensures JoinsUpTo(locs, components, layerSegs, i + 1, next)
      == JoinsUpTo(locs, components, layerSegs, i, next)
         + [JoinSegment(locs, components[i], layerSegs[i], layerSegs[i + 1], JoinStart(locs, i, next))]
  {
    var longer := JoinsUpTo(locs, components, layerSegs, i + 1, next);
    var shorter := JoinsUpTo(locs, components, layerSegs, i, next);
    forall j | 0 <= j < i ensures longer[j] == shorter[j] { }
  }

  function AllNodes(segs: seq<Segment>): seq<Location>
    decreases |segs|
  {
    if segs == [] then [] else AllNodes(segs[..|segs| - 1]) + segs[|segs| - 1].nodes
  }

  function AllEdges(segs: seq<Segment>): seq<Link>
    decreases |segs|
  {
    if segs == [] then [] else AllEdges(segs[..|segs| - 1]) + segs[|segs| - 1].edges
  }

  /** The segments of a successful build, in `graph_segments` insertion order. */
  function Segments(locs: seq<Location>, links: seq<Link>, components: seq<string>, next: nat): seq<Segment>
    requires HasMidTier(LocationsByTypes(locs), |components|)
  {
    var n := |components|;
    var segs := LayersUpTo(LocationsByTypes(locs), links, n, n + 1, next);
    segs + JoinsUpTo(locs, components, segs, n, LayerStart(LocationsByTypes(locs), n, n + 1, next))
  }

  /** `make_graph(service, topology)` for the service's component descriptions, counter at `next`. */
  function MakeGraphSpec(locs: seq<Location>, links: seq<Link>, components: seq<string>, next: nat): Build
  {
    var layers := LocationsByTypes(locs);
    var n := |components|;
    if !HasMidTier(layers, n) then Build(Failure(NoMidTier), next + |Concat(layers)|)
    else
      var segs := LayersUpTo(layers, links, n, n + 1, next);
      var afterLayers := LayerStart(layers, n, n + 1, next);
      var joins := JoinsUpTo(locs, components, segs, n, afterLayers);
      Build(Success(Segment(AllNodes(segs + joins), AllEdges(segs + joins))), JoinStart(locs, n, afterLayers))
  }

  // ---------------------------------------------------------------------------
  // The construction, loop by loop

  /** Copying `a + b` is copying `a`, then copying `b` from where the counter has got to. */
  lemma {:induction false} CopyAllAppend(a: seq<Location>, b: seq<Location>, next: nat)
    ensures CopyAll(a + b, next) == CopyAll(a, next) + CopyAll(b, next + |a|)
    decreases |b|
  {
    if b != [] {
      var b' := b[..|b| - 1];
      assert (a + b)[..|a + b| - 1] == a + b';
      CopyAllAppend(a, b', next);
    } else {
      assert a + b == a;
    }
  }

  /** Location j gets out copy `next + 2j` and in copy `next + 2j + 1`. */
  lemma {:induction false} OutInCopiesAt(locs: seq<Location>, next: nat)
    ensures forall j :: 0 <= j < |locs| ==> OutInCopies(locs, next).0[j] == CopyOf(locs[j], next + 2 * j)
    ensures forall j :: 0 <= j < |locs| ==> OutInCopies(locs, next).1[j] == CopyOf(locs[j], next + 2 * j + 1)
    decreases |locs|
  {
    if locs != [] {
      OutInCopiesAt(locs[..|locs| - 1], next);
    }
  }

  /** Copying `a + b` is copying `a`, then copying `b` from where the counter has got to. */
  lemma OutInCopiesAppend(a: seq<Location>, b: seq<Location>, next: nat)
    ensures OutInCopies(a + b, next).0 == OutInCopies(a, next).0 + OutInCopies(b, next + 2 * |a|).0
    ensures OutInCopies(a + b, next).1 == OutInCopies(a, next).1 + OutInCopies(b, next + 2 * |a|).1
  {
    OutInCopiesAt(a + b, next);
    OutInCopiesAt(a, next);
    OutInCopiesAt(b, next + 2 * |a|);
    CopiesJoin(a, b, next, OutInCopies(a + b, next).0, OutInCopies(a, next).0, OutInCopies(b, next + 2 * |a|).0, 0);
    CopiesJoin(a, b, next, OutInCopies(a + b, next).1, OutInCopies(a, next).1, OutInCopies(b, next + 2 * |a|).1, 1);
  }

  /** Copies numbered from `next` with stride 2 and offset `d`: those of `a + b` are those of `a`, then of `b`. */
  lemma CopiesJoin(a: seq<Location>, b: seq<Location>, next: nat, all: seq<Location>, left: seq<Location>, right: seq<Location>, d: nat)
    requires |all| == |a + b| && |left| == |a| && |right| == |b|
    requires forall j :: 0 <= j < |a + b| ==> all[j] == CopyOf((a + b)[j], next + 2 * j + d)
    requires forall j :: 0 <= j < |a| ==> left[j] == CopyOf(a[j], next + 2 * j + d)
    requires forall j :: 0 <= j < |b| ==> right[j] == CopyOf(b[j], next + 2 * |a| + 2 * j + d)
    ensures all == left + right
  {
    forall j | 0 <= j < |all| ensures all[j] == (left + right)[j] {
      if j >= |a| {
        assert all[j] == CopyOf(b[j - |a|], next + 2 * |a| + 2 * (j - |a|) + d);
      }
    }
  }

  /** Concatenating one more tier. */
  lemma TierPrefix(layers: seq<seq<Location>>, i: nat)
    requires i < |layers|
    ensures Concat(layers[..i + 1]) == Concat(layers[..i]) + layers[i]
  {
    assert layers[..i + 1][..i] == layers[..i];
  }

  /** Every location of a tier belongs to the concatenation of all tiers. */
  lemma TierMember(layers: seq<seq<Location>>, i: nat, x: Location)
    requires i < |layers| && x in layers[i]
    ensures x in Concat(layers)
  {
    ConcatMember(layers, x);
  }

  /** `for node in layer: new_nodes.append(node.copy())`. */
  method CopyTier(ids: IdCounter, tier: seq<Location>) returns (copies: seq<Location>)
    requires ids.Valid() && forall x :: x in tier ==> x.WellFormed()
    modifies ids
    ensures ids.Valid() && ids.next == old(ids.next) + |tier|
    ensures copies == CopyAll(tier, old(ids.next))
  {
    copies := [];
    ghost var start := ids.next;
    for j := 0 to |tier|
      invariant ids.Valid() && ids.next == start + j
      invariant copies == CopyAll(tier[..j], start)
    {
      assert tier[..j + 1][..j] == tier[..j];
      var c := Copy(ids, tier[j]);
      copies := copies + [c];
    }
    assert tier[..|tier|] == tier;
  }

  /** `for node in layer: out_nodes.append(node.copy()); in_nodes.append(node.copy())`. */
  method CopyTierOutIn(ids: IdCounter, tier: seq<Location>) returns (outs: seq<Location>, ins: seq<Location>)
    requires ids.Valid() && forall x :: x in tier ==> x.WellFormed()
    modifies ids
    ensures ids.Valid() && ids.next == old(ids.next) + 2 * |tier|
    ensures (outs, ins) == OutInCopies(tier, old(ids.next))
  {
    outs, ins := [], [];
    ghost var start := ids.next;
    for j := 0 to |tier|
      invariant ids.Valid() && ids.next == start + 2 * j
      invariant (outs, ins) == OutInCopies(tier[..j], start)
    {
      assert tier[..j + 1][..j] == tier[..j];
      var o := Copy(ids, tier[j]);
      var n := Copy(ids, tier[j]);
      outs, ins := outs + [o], ins + [n];
    }
    assert tier[..|tier|] == tier;
  }

  /** `for layer in layers: for node in layer: new_nodes.append(node.copy())`. */
  method CopyLayers(ids: IdCounter, layers: seq<seq<Location>>) returns (copies: seq<Location>)
    requires ids.Valid() && forall x: Location :: x in Concat(layers) ==> x.WellFormed()
    modifies ids
    ensures ids.Valid() && ids.next == old(ids.next) + |Concat(layers)|
    ensures copies == CopyAll(Concat(layers), old(ids.next))
  {
    copies := [];
    ghost var start := ids.next;
    for i := 0 to |layers|
      invariant ids.Valid() && ids.next == start + |Concat(layers[..i])|
      invariant copies == CopyAll(Concat(layers[..i]), start)
    {
      TierPrefix(layers, i);
      forall x | x in layers[i]
        ensures x.WellFormed()
      {
        TierMember(layers, i, x);
      }
      var tier := CopyTier(ids, layers[i]);
      CopyAllAppend(Concat(layers[..i]), layers[i], start);
      copies := copies + tier;
    }
    assert layers[..|layers|] == layers;
  }

  /** `for layer in intermediate_layers: for node in layer: ...` with both copies of each node. */
  method CopyOutIn(ids: IdCounter, layers: seq<seq<Location>>) returns (outs: seq<Location>, ins: seq<Location>)
    requires ids.Valid() && forall x: Location :: x in Concat(layers) ==> x.WellFormed()
    modifies ids
    ensures ids.Valid() && ids.next == old(ids.next) + 2 * |Concat(layers)|
    ensures (outs, ins) == OutInCopies(Concat(layers), old(ids.next))
  {
    outs, ins := [], [];
    ghost var start := ids.next;
    for i := 0 to |layers|
      invariant ids.Valid() && ids.next == start + 2 * |Concat(layers[..i])|
      invariant (outs, ins) == OutInCopies(Concat(layers[..i]), start)
    {
      TierPrefix(layers, i);
      forall x | x in layers[i]
        ensures x.WellFormed()
      {
        TierMember(layers, i, x);
      }
      var tierOuts, tierIns := CopyTierOutIn(ids, layers[i]);
      OutInCopiesAppend(Concat(layers[..i]), layers[i], start);
      outs, ins := outs + tierOuts, ins + tierIns;
    }
    assert layers[..|layers|] == layers;
  }

  /** `for l in locations: if l.type == "node": new_nodes.append(location(..., "dummy"))`. */
  method MakeDummies(ids: IdCounter, locs: seq<Location>, component: string) returns (dummies: seq<Location>)
    requires ids.Valid()
    modifies ids
    ensures ids.Valid() && ids.next == old(ids.next) + |dummies|
    ensures dummies == DummyNodes(locs, component, old(ids.next))
  {
    dummies := [];
    ghost var start := ids.next;
    for i := 0 to |locs|
      invariant ids.Valid() && ids.next == start + |dummies|
      invariant dummies == DummyNodes(locs[..i], component, start)
    {
      assert locs[..i + 1][..i] == locs[..i];
      if locs[i].ltype == Node {
        var d := NewLocation(ids, locs[i].description + "_" + component, "dummy", None, None);
        dummies := dummies + [d.value];
      }
    }
    assert locs[..|locs|] == locs;
  }

  /** The inner loop `for sink in snks: if <match>: append copies` for one source. */
  method CopyEdgesFrom(e: Link, source: Location, snks: seq<Location>, reversed: bool) returns (edges: seq<Link>)
    ensures edges == Row(source, snks, CopyFn(e, reversed))
  {
    edges := [];
    for j := 0 to |snks|
      invariant edges == Row(source, snks[..j], CopyFn(e, reversed))
    {
      RowSnoc(source, snks, CopyFn(e, reversed), j);
      var copies := CopyEdgePair(e, source, snks[j], reversed);
      edges := edges + copies;
    }
    assert snks[..|snks|] == snks;
  }

  /** The body of the inner loop: the copies appended for one (source, sink) pair. */
  method CopyEdgePair(e: Link, source: Location, sink: Location, reversed: bool) returns (copies: seq<Link>)
    ensures copies == CopyFn(e, reversed)(source, sink)
  {
    copies := [];
    var matched := if reversed
      then e.source.description == sink.description && e.sink.description == source.description
      else e.source.description == source.description && e.sink.description == sink.description;
    if matched {
      var newEdge := e.CopyWithNewNodes(source, sink).SetLinkCost(1);
      copies := copies + [newEdge];
      if e.twoWay {
        newEdge := e.CopyWithNewNodes(sink, source).SetLinkCost(1);
        copies := copies + [newEdge];
      }
    }
  }

  /** One edge-copying double loop: `for source in srcs: for sink in snks: if <match>: append copies`. */
  method CopyEdges(e: Link, srcs: seq<Location>, snks: seq<Location>, reversed: bool) returns (edges: seq<Link>)
    ensures edges == Pairs(srcs, snks, CopyFn(e, reversed))
  {
    edges := [];
    for i := 0 to |srcs|
      invariant edges == Pairs(srcs[..i], snks, CopyFn(e, reversed))
    {
      PairsSnoc(srcs, snks, CopyFn(e, reversed), i);
      var row := CopyEdgesFrom(e, srcs[i], snks, reversed);
      edges := edges + row;
    }
    assert srcs[..|srcs|] == srcs;
  }

  /** The inner shortcut loop for one out copy. */
  method ShortcutsFrom(source: Location, ins: seq<Location>) returns (edges: seq<Link>)
    ensures edges == Row(source, ins, ShortcutFn())
  {
    edges := [];
    for j := 0 to |ins|
      invariant edges == Row(source, ins[..j], ShortcutFn())
    {
      RowSnoc(source, ins, ShortcutFn(), j);
      var sink := ins[j];
      if source.description == sink.description {
        edges := edges + [ZeroCostLink(source, sink)];
      }
    }
    assert ins[..|ins|] == ins;
  }

  /** The shortcut loop: every out copy to every in copy of the same description. */
  method AddShortcuts(outs: seq<Location>, ins: seq<Location>) returns (edges: seq<Link>)
    ensures edges == Pairs(outs, ins, ShortcutFn())
  {
    edges := [];
    for i := 0 to |outs|
      invariant edges == Pairs(outs[..i], ins, ShortcutFn())
    {
      PairsSnoc(outs, ins, ShortcutFn(), i);
      var row := ShortcutsFrom(outs[i], ins);
      edges := edges + row;
    }
    assert outs[..|outs|] == outs;
  }

  /** The inner pre-join loop for one location of layer i. */
  method JoinPreFrom(pre: Segment, source: Location, dummies: seq<Location>, component: string) returns (edges: seq<Link>)
    ensures edges == Row(source, dummies, PreJoinFn(pre, component))
  {
    edges := [];
    for j := 0 to |dummies|
      invariant edges == Row(source, dummies[..j], PreJoinFn(pre, component))
    {
      RowSnoc(source, dummies, PreJoinFn(pre, component), j);
      var sink := dummies[j];
      if sink.description == source.description + "_" + component && Outgoing(pre.edges, source) == [] {
        edges := edges + [ZeroCostLink(source, sink)];
      }
    }
    assert dummies[..|dummies|] == dummies;
  }

  /** Joins the previous layer to the component's dummies. */
  method JoinPre(pre: Segment, dummies: seq<Location>, component: string) returns (edges: seq<Link>)
    ensures edges == Pairs(pre.nodes, dummies, PreJoinFn(pre, component))
  {
    edges := [];
    for i := 0 to |pre.nodes|
      invariant edges == Pairs(pre.nodes[..i], dummies, PreJoinFn(pre, component))
    {
      PairsSnoc(pre.nodes, dummies, PreJoinFn(pre, component), i);
      var row := JoinPreFrom(pre, pre.nodes[i], dummies, component);
      edges := edges + row;
    }
    assert pre.nodes[..|pre.nodes|] == pre.nodes;
  }

  /** The inner post-join loop for one dummy. */
  method JoinPostFrom(source: Location, post: Segment, component: string) returns (edges: seq<Link>)
    ensures edges == Row(source, post.nodes, PostJoinFn(post, component))
  {
    edges := [];
    for j := 0 to |post.nodes|
      invariant edges == Row(source, post.nodes[..j], PostJoinFn(post, component))
    {
      RowSnoc(source, post.nodes, PostJoinFn(post, component), j);
      var sink := post.nodes[j];
      if source.description == sink.description + "_" + component && Incoming(post.edges, sink) == [] {
        edges := edges + [ZeroCostLink(source, sink)];
      }
    }
    assert post.nodes[..|post.nodes|] == post.nodes;
  }

  /** Joins the component's dummies to the next layer. */
  method JoinPost(dummies: seq<Location>, post: Segment, component: string) returns (edges: seq<Link>)
    ensures edges == Pairs(dummies, post.nodes, PostJoinFn(post, component))
  {
    edges := [];
    for i := 0 to |dummies|
      invariant edges == Pairs(dummies[..i], post.nodes, PostJoinFn(post, component))
    {
      PairsSnoc(dummies, post.nodes, PostJoinFn(post, component), i);
      var row := JoinPostFrom(dummies[i], post, component);
      edges := edges + row;
    }
    assert dummies[..|dummies|] == dummies;
  }

  /** The edges of layer 0 or layer n: one edge-copying double loop per physical link. */
  method LayerEdges(links: seq<Link>, nodes: seq<Location>, reversed: bool) returns (edges: seq<Link>)
    ensures edges == ConcatMap(links, LayerFn(nodes, reversed))
  {
    edges := [];
    for i := 0 to |links|
      invariant edges == ConcatMap(links[..i], LayerFn(nodes, reversed))
    {
      ConcatMapSnoc(links, LayerFn(nodes, reversed), i);
      var copies := CopyEdges(links[i], nodes, nodes, reversed);
      edges := edges + copies;
    }
    assert links[..|links|] == links;
  }

  /** The four double loops of an inter-component layer for one physical link. */
  method InterEdgesOf(e: Link, outs: seq<Location>, mid: seq<Location>, ins: seq<Location>) returns (edges: seq<Link>)
    ensures edges == InterFn(outs, mid, ins)(e)
  {
    var outOut := CopyEdges(e, outs, outs, true);
    var inIn := CopyEdges(e, ins, ins, false);
    var outMid := CopyEdges(e, outs, mid, true);
    var midIn := CopyEdges(e, mid, ins, false);
    edges := outOut + inIn + outMid + midIn;
  }

  /** The edges of an inter-component layer: four double loops per physical link. */
  method InterEdges(links: seq<Link>, outs: seq<Location>, mid: seq<Location>, ins: seq<Location>) returns (edges: seq<Link>)
    ensures edges == ConcatMap(links, InterFn(outs, mid, ins))
  {
    edges := [];
    for i := 0 to |links|
      invariant edges == ConcatMap(links[..i], InterFn(outs, mid, ins))
    {
      ConcatMapSnoc(links, InterFn(outs, mid, ins), i);
      var copies := InterEdgesOf(links[i], outs, mid, ins);
      edges := edges + copies;
    }
    assert links[..|links|] == links;
  }

  /** Layer 0 (`exit` false) or layer n (`exit` true). */
  method BuildOuterLayer(ids: IdCounter, layers: seq<seq<Location>>, links: seq<Link>, exit: bool) returns (seg: Segment)
    requires ids.Valid() && forall x: Location :: x in Concat(layers) ==> x.WellFormed()
    modifies ids
    ensures ids.Valid() && ids.next == old(ids.next) + |Concat(layers)|
    ensures seg == if exit then ExitSegment(layers, links, old(ids.next)) else EntrySegment(layers, links, old(ids.next))
  {
    var copies := CopyLayers(ids, layers);
    var edges := LayerEdges(links, copies, exit);
    seg := Segment(copies, edges);
  }

  /** An inter-component layer; fails on `layers[1]` when there is no second tier. */
  method BuildInterLayer(ids: IdCounter, layers: seq<seq<Location>>, links: seq<Link>) returns (r: Result<Segment, BuildError>)
    requires ids.Valid() && forall x: Location :: x in Concat(layers) ==> x.WellFormed()
    modifies ids
    ensures ids.Valid() && ids.next == old(ids.next) + 2 * |LowerTiers(layers)|
    ensures r.Failure? <==> |layers| < 2
    ensures r.Success? ==> |layers| >= 2 && r.value == InterSegment(layers, links, old(ids.next))
  {
    var lower := if |layers| >= 2 then layers[2..] else [];
    assert forall x: Location :: x in Concat(lower) ==> x.WellFormed() by {
      if |layers| >= 2 {
        ConcatAppend(layers[..2], layers[2..]);
        assert layers[..2] + layers[2..] == layers;
      }
    }
    var outs, ins := CopyOutIn(ids, lower);
    if |layers| < 2 {
      return Failure(NoMidTier);
    }
    var mid := layers[1];
    var edges := InterEdges(links, outs, mid, ins);
    var shortcuts := AddShortcuts(outs, ins);
    r := Success(Segment(outs + mid + ins, edges + shortcuts));
  }

  /** One pass of the `k` loop: layer k, or the failure at `layers[1]`. */
  method BuildLayer(ids: IdCounter, layers: seq<seq<Location>>, links: seq<Link>, n: nat, k: nat) returns (r: Result<Segment, BuildError>)
    requires ids.Valid() && forall x: Location :: x in Concat(layers) ==> x.WellFormed()
    modifies ids
    ensures ids.Valid() && ids.next == old(ids.next) + LayerIds(layers, n, k)
    ensures r.Failure? <==> !(k == 0 || k == n || |layers| >= 2)
    ensures r.Success? ==> r.value == LayerSegment(layers, links, n, k, old(ids.next))
  {
    if k == 0 || k == n {
      var seg := BuildOuterLayer(ids, layers, links, k != 0);
      r := Success(seg);
    } else {
      r := BuildInterLayer(ids, layers, links);
    }
  }

  /** Without a second tier the loop stops at layer 1, having drawn one id per location for layer 0. */
  lemma FailedLayerIds(layers: seq<seq<Location>>, n: nat, next: nat)
    requires !HasMidTier(layers, n)
    ensures LayerStart(layers, n, 1, next) + LayerIds(layers, n, 1) == next + |Concat(layers)|
  {
    assert LowerTiers(layers) == [];
  }

  /** The `for k in range(no_components + 1)` loop: layers 0 .. n, or the failure at `layers[1]`. */
  method BuildLayers(ids: IdCounter, layers: seq<seq<Location>>, links: seq<Link>, n: nat) returns (r: Result<seq<Segment>, BuildError>)
    requires ids.Valid() && forall x: Location :: x in Concat(layers) ==> x.WellFormed()
    modifies ids
    ensures ids.Valid()
    ensures r.Failure? <==> !HasMidTier(layers, n)
    ensures r.Failure? ==> ids.next == old(ids.next) + |Concat(layers)|
    ensures r.Success? ==> r.value == LayersUpTo(layers, links, n, n + 1, old(ids.next))
    ensures r.Success? ==> ids.next == LayerStart(layers, n, n + 1, old(ids.next))
  {
    var segments: seq<Segment> := [];
    ghost var start := ids.next;
    for k := 0 to n + 1
      invariant k <= 1 || HasMidTier(layers, n)
      invariant ids.Valid() && ids.next == LayerStart(layers, n, k, start)
      invariant segments == LayersUpTo(layers, links, n, k, start)
    {
      var extended := ExtendLayers(ids, layers, links, n, k, start, segments);
      if extended.Failure? {
        return Failure(extended.error);
      }
      segments := extended.value;
    }
    r := Success(segments);
  }

  /** Layers 0 .. k-1 followed by layer k, or the failure at `layers[1]` with the ids layer 0 drew. */
  method ExtendLayers(ids: IdCounter, layers: seq<seq<Location>>, links: seq<Link>, n: nat, k: nat, ghost start: nat,
                      segments: seq<Segment>) returns (r: Result<seq<Segment>, BuildError>)
    requires k < n + 1 && (k <= 1 || HasMidTier(layers, n))
    requires ids.Valid() && forall x: Location :: x in Concat(layers) ==> x.WellFormed()
    requires ids.next == LayerStart(layers, n, k, start) && segments == LayersUpTo(layers, links, n, k, start)
    modifies ids
    ensures ids.Valid()
    ensures r.Failure? <==> !HasMidTier(layers, n) && k == 1
    ensures r.Failure? ==> ids.next == start + |Concat(layers)|
    ensures r.Success? ==> r.value == LayersUpTo(layers, links, n, k + 1, start)
    ensures r.Success? ==> ids.next == LayerStart(layers, n, k + 1, start)
  {
    var layer := BuildLayer(ids, layers, links, n, k);
    if layer.Failure? {
      FailedLayerIds(layers, n, start);
      return Failure(layer.error);
    }
    LayerStartStep(layers, n, k, start);
    LayersUpToSnoc(layers, links, n, k, start);
    r := Success(segments + [layer.value]);
  }

  /** One pass of the component loop: the dummies of `component` and their joins to `pre` and `post`. */
  method BuildJoin(ids: IdCounter, locs: seq<Location>, component: string, pre: Segment, post: Segment) returns (seg: Segment)
    requires ids.Valid()
    modifies ids
    ensures ids.Valid()
    ensures seg == JoinSegment(locs, component, pre, post, old(ids.next))
    ensures ids.next == old(ids.next) + |seg.nodes|
  {
    var dummies := MakeDummies(ids, locs, component);
    var preEdges := JoinPre(pre, dummies, component);
    var postEdges := JoinPost(dummies, post, component);
    seg := Segment(dummies, preEdges + postEdges);
  }

  /** The `for i in range(no_components)` loop: each component's dummies and joins. */
  method BuildJoins(ids: IdCounter, locs: seq<Location>, components: seq<string>, layerSegs: seq<Segment>) returns (joins: seq<Segment>)
    requires ids.Valid() && |components| < |layerSegs|
    modifies ids
    ensures ids.Valid()
    ensures joins == JoinsUpTo(locs, components, layerSegs, |components|, old(ids.next))
    ensures ids.next == JoinStart(locs, |components|, old(ids.next))
  {
    joins := [];
    ghost var start := ids.next;
    for i := 0 to |components|
      invariant ids.Valid() && ids.next == JoinStart(locs, i, start)
      invariant joins == JoinsUpTo(locs, components, layerSegs, i, start)
    {
      var seg := BuildJoin(ids, locs, components[i], layerSegs[i], layerSegs[i + 1]);
      JoinStartStep(locs, components[i], i, start);
      JoinsUpToSnoc(locs, components, layerSegs, i, start);
      joins := joins + [seg];
    }
  }

  /** `for key in graph_segments: nodes += ...; edges += ...`. */
  method Concatenate(all: seq<Segment>) returns (nodes: seq<Location>, edges: seq<Link>)
    ensures nodes == AllNodes(all) && edges == AllEdges(all)
  {
    nodes, edges := [], [];
    for j := 0 to |all|
      invariant nodes == AllNodes(all[..j]) && edges == AllEdges(all[..j])
    {
      assert all[..j + 1][..j] == all[..j];
      nodes := nodes + all[j].nodes;
      edges := edges + all[j].edges;
    }
    assert all[..|all|] == all;
  }

  /**
   * `make_graph`, given the service's component descriptions and the topology's lists. Every
   * location was made by the location constructor, which draws its id from the shared counter, so
   * the topology's ids tell its locations apart and were all drawn before the build starts; under
   * that condition the model's tests by id are the source's tests by object identity.
   */
  method MakeGraph(ids: IdCounter, locs: seq<Location>, links: seq<Link>, components: seq<string>) returns (r: Result<Segment, BuildError>)
    requires ids.Valid() && forall x :: x in locs ==> x.WellFormed()
    requires IdsIdentify(locs) && forall x :: x in locs ==> x.id in ids.issued
    modifies ids
    ensures ids.Valid()
    ensures r == MakeGraphSpec(locs, links, components, old(ids.next)).result
    ensures ids.next == MakeGraphSpec(locs, links, components, old(ids.next)).next
  {
    ghost var start := ids.next;
    var layers := LocationsByTypes(locs);
    LocationsByTypesGroups(locs);
    var built := BuildLayers(ids, layers, links, |components|);
    if built.Failure? {
      assert MakeGraphSpec(locs, links, components, start) == Build(Failure(NoMidTier), start + |Concat(layers)|);
      return Failure(NoMidTier);
    }
    var segments := built.value;
    var joins := BuildJoins(ids, locs, components, segments);
    var nodes, edges := Concatenate(segments + joins);
    r := Success(Segment(nodes, edges));
  }
}
