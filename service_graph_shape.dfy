/**
 * The shape of what `make_graph` builds: every node is a well-formed location, every edge runs
 * between nodes of the graph, and, within each layer, ids tell the nodes apart. The last fact is
 * what makes the join loops' tests by id (`Outgoing`, `Incoming`) the source's tests by object
 * identity (`l.source == source`, `l.sink == sink`, make_service_graph.py:141 and 149).
 */
module ServiceGraphShape {
  import opened Seqs
  import opened Locations
  import opened Links
  import opened Topology
  import opened ServiceGraphBuilder
  import opened ServiceGraphProperties

  /** Every edge of `seg` runs between two of its nodes. */
  ghost predicate Closed(seg: Segment)
  {
    forall l :: l in seg.edges ==> l.source in seg.nodes && l.sink in seg.nodes
  }

  /** Every location was built by the location constructor: resources exactly on nodes. */
  ghost predicate AllWellFormed(xs: seq<Location>)
  {
    forall x :: x in xs ==> x.WellFormed()
  }

  /** The ids of `xs` were all drawn before the counter reached `next`. */
  ghost predicate IdsBelow(xs: seq<Location>, next: nat)
  {
    forall x :: x in xs ==> x.id < next
  }

  /** The second tier and the lower tiers are grouped locations. */
  lemma TiersGrouped(layers: seq<seq<Location>>, x: Location)
    requires |layers| >= 2
    ensures x in layers[1] ==> x in Concat(layers)
    ensures x in LowerTiers(layers) ==> x in Concat(layers)
  {
    ConcatMember(layers, x);
    ConcatMember(layers[2..], x);
    if x in LowerTiers(layers) {
      var i :| 0 <= i < |layers[2..]| && x in layers[2..][i];
      assert layers[2..][i] == layers[i + 2];
    }
  }

  /** Locations numbered `next`, `next + 1`, ... in list order are told apart by their ids. */
  lemma SequentialIds(xs: seq<Location>, next: nat)
    requires forall j :: 0 <= j < |xs| ==> xs[j].id == next + j
    ensures IdsIdentify(xs)
  {
    forall x, y | x in xs && y in xs && x.id == y.id
      ensures x == y
    {
      var i :| 0 <= i < |xs| && xs[i] == x;
      var j :| 0 <= j < |xs| && xs[j] == y;
    }
  }

  /**
   * Out copies numbered `next + 2j`, in copies `next + 2j + 1`, and locations drawn before `next`
   * that ids already tell apart: ids tell the whole layer apart.
   */
  lemma InterleavedIds(outs: seq<Location>, mid: seq<Location>, ins: seq<Location>, next: nat)
    requires |outs| == |ins|
    requires forall j :: 0 <= j < |outs| ==> outs[j].id == next + 2 * j && ins[j].id == next + 2 * j + 1
    requires IdsIdentify(mid) && IdsBelow(mid, next)
    ensures IdsIdentify(outs + mid + ins)
  {
    forall x, y | x in outs + mid + ins && y in outs + mid + ins && x.id == y.id
      ensures x == y
    {
      InterleavedId(outs, mid, ins, next, x);
      InterleavedId(outs, mid, ins, next, y);
      InterleavedPair(outs, mid, ins, next, x, y);
    }
  }

  /** Two nodes of such a layer, each in the second tier or read off its id, with the same id are the same node. */
  lemma InterleavedPair(outs: seq<Location>, mid: seq<Location>, ins: seq<Location>, next: nat, x: Location, y: Location)
    requires |outs| == |ins| && IdsIdentify(mid) && x.id == y.id
    requires x in mid ==> x.id < next
    requires x !in mid ==> next <= x.id && (x.id - next) / 2 < |outs|
    requires x !in mid ==> x == (if (x.id - next) % 2 == 0 then outs[(x.id - next) / 2] else ins[(x.id - next) / 2])
    requires y in mid ==> y.id < next
    requires y !in mid ==> next <= y.id && (y.id - next) / 2 < |outs|
    requires y !in mid ==> y == (if (y.id - next) % 2 == 0 then outs[(y.id - next) / 2] else ins[(y.id - next) / 2])
    ensures x == y
  {
    if x !in mid && y !in mid {
      var d := x.id - next;
      assert x == (if d % 2 == 0 then outs[d / 2] else ins[d / 2]);
    }
  }

  /**
   * Where a node of such a layer sits: the second tier lies below `next`; any other node is read
   * off its id, an out copy at an even offset from `next` and an in copy at an odd one.
   */
  lemma InterleavedId(outs: seq<Location>, mid: seq<Location>, ins: seq<Location>, next: nat, x: Location)
    requires |outs| == |ins|
    requires forall j :: 0 <= j < |outs| ==> outs[j].id == next + 2 * j && ins[j].id == next + 2 * j + 1
    requires IdsBelow(mid, next) && x in outs + mid + ins
    ensures x in mid ==> x.id < next
    ensures x !in mid ==> next <= x.id && (x.id - next) / 2 < |outs|
    ensures x !in mid ==> x == (if (x.id - next) % 2 == 0 then outs[(x.id - next) / 2] else ins[(x.id - next) / 2])
  {
    if x !in mid {
      if x in outs {
        var i :| 0 <= i < |outs| && outs[i] == x;
        assert x.id - next == 2 * i;
      } else {
        var i :| 0 <= i < |ins| && ins[i] == x;
        assert x.id - next == 2 * i + 1;
      }
    }
  }

  /** Copies that keep type and resources of well-formed originals are well formed. */
  lemma CopiesWellFormed(copies: seq<Location>, originals: seq<Location>)
    requires |copies| == |originals| && AllWellFormed(originals)
    requires forall j :: 0 <= j < |copies| ==> copies[j].ltype == originals[j].ltype && copies[j].resources == originals[j].resources
    ensures AllWellFormed(copies)
  {
    forall x | x in copies
      ensures x.WellFormed()
    {
      var j :| 0 <= j < |copies| && copies[j] == x;
      assert originals[j] in originals;
    }
  }

  /**
   * The entry and exit layers: copy j has id `next + j`, so ids tell the copies apart whatever
   * the topology's ids are; copies keep type and resources, so they are as well formed as the
   * grouped locations; every edge runs between two copies.
   */
  lemma OuterShape(layers: seq<seq<Location>>, links: seq<Link>, next: nat, exit: bool)
    ensures var seg := if exit then ExitSegment(layers, links, next) else EntrySegment(layers, links, next);
      && Closed(seg) && IdsIdentify(seg.nodes)
      && (AllWellFormed(Concat(layers)) ==> AllWellFormed(seg.nodes))
  {
    var seg := if exit then ExitSegment(layers, links, next) else EntrySegment(layers, links, next);
    if exit { ExitLayer(layers, links, next); } else { EntryLayer(layers, links, next); }
    SequentialIds(seg.nodes, next);
    if AllWellFormed(Concat(layers)) {
      CopiesWellFormed(seg.nodes, Concat(layers));
    }
  }

  /** Every edge of an inter-component layer runs between two of its nodes. */
  lemma InterClosed(layers: seq<seq<Location>>, links: seq<Link>, next: nat)
    requires |layers| >= 2
    ensures Closed(InterSegment(layers, links, next))
  {
    InterLayer(layers, links, next);
    var seg := InterSegment(layers, links, next);
    var outs := OutInCopies(LowerTiers(layers), next).0;
    var ins := OutInCopies(LowerTiers(layers), next).1;
    var mid := layers[1];
    forall y | y in seg.edges
      ensures y.source in seg.nodes && y.sink in seg.nodes
    {
      if CopiedBetween(links, outs, outs, true, y) {
        CopiedCost(links, outs, outs, true, y);
      } else if CopiedBetween(links, ins, ins, false, y) {
        CopiedCost(links, ins, ins, false, y);
      } else if CopiedBetween(links, outs, mid, true, y) {
        CopiedCost(links, outs, mid, true, y);
      } else if CopiedBetween(links, mid, ins, false, y) {
        CopiedCost(links, mid, ins, false, y);
      } else {
        var s, t :| s in outs && t in ins && s.description == t.description && y == ZeroCostLink(s, t);
      }
    }
  }

  /**
   * The nodes of an inter-component layer: out copy j has id `next + 2j`, in copy j id
   * `next + 2j + 1`, and the second tier keeps its own ids. When those are below `next` and tell
   * the second tier apart, ids tell every node of the layer apart.
   */
  lemma InterIds(layers: seq<seq<Location>>, links: seq<Link>, next: nat)
    requires |layers| >= 2
    ensures IdsIdentify(layers[1]) && IdsBelow(layers[1], next) ==> IdsIdentify(InterSegment(layers, links, next).nodes)
  {
    var lower := LowerTiers(layers);
    var outs := OutInCopies(lower, next).0;
    var ins := OutInCopies(lower, next).1;
    var mid := layers[1];
    if IdsIdentify(mid) && IdsBelow(mid, next) {
      OutInCopiesAt(lower, next);
      InterleavedIds(outs, mid, ins, next);
      assert InterSegment(layers, links, next).nodes == outs + mid + ins;
    }
  }

  /** Copies keep type and resources, so an inter-component layer is as well formed as the grouped locations. */
  lemma InterWellFormed(layers: seq<seq<Location>>, links: seq<Link>, next: nat)
    requires |layers| >= 2
    ensures AllWellFormed(Concat(layers)) ==> AllWellFormed(InterSegment(layers, links, next).nodes)
  {
    var lower := LowerTiers(layers);
    var outs := OutInCopies(lower, next).0;
    var ins := OutInCopies(lower, next).1;
    var mid := layers[1];
    if AllWellFormed(Concat(layers)) {
      forall x | x in lower
        ensures x.WellFormed()
      {
        TiersGrouped(layers, x);
      }
      forall x | x in mid
        ensures x.WellFormed()
      {
        TiersGrouped(layers, x);
      }
      OutInCopiesAt(lower, next);
      CopiesWellFormed(outs, lower);
      CopiesWellFormed(ins, lower);
      assert InterSegment(layers, links, next).nodes == outs + mid + ins;
    }
  }

  /**
   * Layer k: every edge runs between two of its nodes; its nodes are well formed when the grouped
   * locations are; and ids tell its nodes apart when they tell the second tier apart and the
   * second tier was drawn before the layer's copies.
   */
  lemma LayerShape(layers: seq<seq<Location>>, links: seq<Link>, n: nat, k: nat, start: nat)
    requires k == 0 || k == n || |layers| >= 2
    ensures var seg := LayerSegment(layers, links, n, k, start);
      && Closed(seg)
      && (AllWellFormed(Concat(layers)) ==> AllWellFormed(seg.nodes))
      && ((|layers| >= 2 ==> IdsIdentify(layers[1]) && IdsBelow(layers[1], start)) ==> IdsIdentify(seg.nodes))
  {
    if k == 0 || k == n {
      OuterShape(layers, links, start, k != 0);
    } else {
      InterClosed(layers, links, start);
      InterIds(layers, links, start);
      InterWellFormed(layers, links, start);
    }
  }

  /**
   * What holds of the topology's locations holds of the grouped ones: well-formedness, and ids
   * that tell them apart and lie below a counter value at most `start`.
   */
  lemma GroupedFromTopology(locs: seq<Location>, next: nat, start: nat)
    requires next <= start
    ensures var layers := LocationsByTypes(locs);
      && (AllWellFormed(locs) ==> AllWellFormed(Concat(layers)))
      && (IdsIdentify(locs) && IdsBelow(locs, next) && |layers| >= 2 ==> IdsIdentify(layers[1]) && IdsBelow(layers[1], start))
  {
    var layers := LocationsByTypes(locs);
    LocationsByTypesGroups(locs);
    if |layers| >= 2 {
      forall x | x in layers[1]
        ensures x in locs
      {
        TiersGrouped(layers, x);
      }
    }
  }

  /** No layer draws ids before the counter value the build started from. */
  lemma LayerStartFrom(layers: seq<seq<Location>>, n: nat, k: nat, next: nat)
    ensures next <= LayerStart(layers, n, k, next)
  {
    var before: nat := InterLayersBefore(n, k);
    var perLayer: nat := 2 * |LowerTiers(layers)|;
    assert 0 <= before * perLayer;
  }

  /**
   * Layer k of a build that succeeds (the topology has a second tier): every edge runs between
   * two of its nodes; its nodes are well formed when the topology's are; and when the topology's
   * ids tell its locations apart and were all drawn before the build, ids tell the layer's nodes
   * apart.
   */
  lemma MakeGraphLayerShape(locs: seq<Location>, links: seq<Link>, components: seq<string>, next: nat, k: nat)
    requires HasMidTier(LocationsByTypes(locs), |components|) && k <= |components|
    ensures var seg := Segments(locs, links, components, next)[k];
      && Closed(seg)
      && (AllWellFormed(locs) ==> AllWellFormed(seg.nodes))
      && (IdsIdentify(locs) && IdsBelow(locs, next) ==> IdsIdentify(seg.nodes))
  {
    var n := |components|;
    var layers := LocationsByTypes(locs);
    SegmentsLayers(locs, links, components, next, k);
    var start := LayerStart(layers, n, k, next);
    LayerStartFrom(layers, n, k, next);
    GroupedFromTopology(locs, next, start);
    LayerShape(layers, links, n, k, start);
  }

  /**
   * A component's join segment: its dummies are well formed (type dummy, no resources), and each
   * edge runs from a location of the layer before to a dummy, or from a dummy to a location of
   * the layer after.
   */
  lemma JoinShape(locs: seq<Location>, component: string, pre: Segment, post: Segment, next: nat)
    ensures var seg := JoinSegment(locs, component, pre, post, next);
      && AllWellFormed(seg.nodes)
      && forall l :: l in seg.edges ==>
           (l.source in pre.nodes && l.sink in seg.nodes) || (l.source in seg.nodes && l.sink in post.nodes)
  {
    var seg := JoinSegment(locs, component, pre, post, next);
    DummyNodesAt(locs, component, next);
    JoinEdges(locs, component, pre, post, next);
    forall x | x in seg.nodes
      ensures x.WellFormed()
    {
      var i :| 0 <= i < |seg.nodes| && seg.nodes[i] == x;
    }
  }

  /**
   * `make_graph` on a topology of well-formed locations builds a valid topology: every node is a
   * well-formed location and every edge runs between two nodes of the graph.
   */
  lemma MakeGraphValid(locs: seq<Location>, links: seq<Link>, components: seq<string>, next: nat)
    requires MakeGraphSpec(locs, links, components, next).result.Success? && AllWellFormed(locs)
    ensures var g := MakeGraphSpec(locs, links, components, next).result.value;
      AllWellFormed(g.nodes) && Closed(g)
  {
    var n := |components|;
    var g := MakeGraphSpec(locs, links, components, next).result.value;
    var segs := Segments(locs, links, components, next);
    MakeGraphMembers(locs, links, components, next);
    forall x | x in g.nodes
      ensures x.WellFormed()
    {
      var k :| 0 <= k < |segs| && x in segs[k].nodes;
      SegmentShape(locs, links, components, next, k);
    }
    forall l | l in g.edges
      ensures l.source in g.nodes && l.sink in g.nodes
    {
      var k :| 0 <= k < |segs| && l in segs[k].edges;
      SegmentShape(locs, links, components, next, k);
      var i, j :| 0 <= i < |segs| && 0 <= j < |segs| && l.source in segs[i].nodes && l.sink in segs[j].nodes;
    }
  }

  /** Segment k of a successful build: well-formed nodes, and edges between nodes of some segments. */
  lemma SegmentShape(locs: seq<Location>, links: seq<Link>, components: seq<string>, next: nat, k: nat)
    requires HasMidTier(LocationsByTypes(locs), |components|) && AllWellFormed(locs)
    requires k < 2 * |components| + 1
    ensures var segs := Segments(locs, links, components, next);
      && AllWellFormed(segs[k].nodes)
      && forall l :: l in segs[k].edges ==>
           exists i, j :: 0 <= i < |segs| && 0 <= j < |segs| && l.source in segs[i].nodes && l.sink in segs[j].nodes
  {
    if k <= |components| {
      LayerSegmentEdges(locs, links, components, next, k);
    } else {
      JoinSegmentEdges(locs, links, components, next, k);
    }
  }

  /** A layer's nodes are well formed and its edges stay inside it. */
  lemma LayerSegmentEdges(locs: seq<Location>, links: seq<Link>, components: seq<string>, next: nat, k: nat)
    requires HasMidTier(LocationsByTypes(locs), |components|) && AllWellFormed(locs)
    requires k <= |components|
    ensures var segs := Segments(locs, links, components, next);
      && AllWellFormed(segs[k].nodes)
      && forall l :: l in segs[k].edges ==>
           exists i, j :: 0 <= i < |segs| && 0 <= j < |segs| && l.source in segs[i].nodes && l.sink in segs[j].nodes
  {
    MakeGraphLayerShape(locs, links, components, next, k);
    EdgesBetween(Segments(locs, links, components, next), k, k, k);
  }

  /** A join segment's dummies are well formed and its edges reach into the layers on either side. */
  lemma JoinSegmentEdges(locs: seq<Location>, links: seq<Link>, components: seq<string>, next: nat, k: nat)
    requires HasMidTier(LocationsByTypes(locs), |components|)
    requires |components| < k < 2 * |components| + 1
    ensures var segs := Segments(locs, links, components, next);
      && AllWellFormed(segs[k].nodes)
      && forall l :: l in segs[k].edges ==>
           exists i, j :: 0 <= i < |segs| && 0 <= j < |segs| && l.source in segs[i].nodes && l.sink in segs[j].nodes
  {
    var i := k - |components| - 1;
    JoinSegmentShape(locs, links, components, next, i);
    EdgesBetween(Segments(locs, links, components, next), k, i, i + 1);
  }

  /**
   * Edges of segment k that run from segment `before` or from segment k, into segment k or into
   * segment `after`, each run between nodes of some two segments.
   */
  lemma EdgesBetween(segs: seq<Segment>, k: nat, before: nat, after: nat)
    requires k < |segs| && before < |segs| && after < |segs|
    requires forall l :: l in segs[k].edges ==>
               (l.source in segs[before].nodes || l.source in segs[k].nodes)
               && (l.sink in segs[k].nodes || l.sink in segs[after].nodes)
    ensures forall l :: l in segs[k].edges ==>
              exists i, j :: 0 <= i < |segs| && 0 <= j < |segs| && l.source in segs[i].nodes && l.sink in segs[j].nodes
  {
    forall l | l in segs[k].edges
      ensures exists i, j :: 0 <= i < |segs| && 0 <= j < |segs| && l.source in segs[i].nodes && l.sink in segs[j].nodes
    {
      var i := if l.source in segs[before].nodes then before else k;
      var j := if l.sink in segs[k].nodes then k else after;
      assert l.source in segs[i].nodes && l.sink in segs[j].nodes;
    }
  }

  /**
   * The join segment of component i: its dummies are well formed, and each edge runs from a node
   * of layer i to one of its dummies or from one of its dummies to a node of layer i + 1.
   */
  lemma JoinSegmentShape(locs: seq<Location>, links: seq<Link>, components: seq<string>, next: nat, i: nat)
    requires HasMidTier(LocationsByTypes(locs), |components|) && i < |components|
    ensures var segs := Segments(locs, links, components, next);
      var join := segs[|components| + 1 + i];
      && AllWellFormed(join.nodes)
      && forall l :: l in join.edges ==>
           (l.source in segs[i].nodes && l.sink in join.nodes) || (l.source in join.nodes && l.sink in segs[i + 1].nodes)
  {
    var n := |components|;
    var layers := LocationsByTypes(locs);
    var layerSegs := LayersUpTo(layers, links, n, n + 1, next);
    var afterLayers := LayerStart(layers, n, n + 1, next);
    SegmentsJoins(locs, links, components, next, i);
    JoinShape(locs, components[i], layerSegs[i], layerSegs[i + 1], JoinStart(locs, i, afterLayers));
    LayersUpToAt(layers, links, n, n + 1, next, i);
    LayersUpToAt(layers, links, n, n + 1, next, i + 1);
    SegmentsLayers(locs, links, components, next, i);
    SegmentsLayers(locs, links, components, next, i + 1);
  }

  /**
   * The join loops ask whether any edge of layer k leaves (enters) a location of that layer. The
   * model compares ids (`Outgoing`, `Incoming`), the source compares objects (`l.source == source`,
   * `l.sink == sink`). In a build that succeeds, when the topology's ids tell its locations apart
   * and were all drawn before the build, the two tests agree on every location of every layer.
   */
  lemma JoinTestsByIdentity(locs: seq<Location>, links: seq<Link>, components: seq<string>, next: nat, k: nat, x: Location)
    requires HasMidTier(LocationsByTypes(locs), |components|) && k <= |components|
    requires IdsIdentify(locs) && IdsBelow(locs, next)
    requires x in Segments(locs, links, components, next)[k].nodes
    ensures var seg := Segments(locs, links, components, next)[k];
      && (Outgoing(seg.edges, x) == [] <==> forall l :: l in seg.edges ==> l.source != x)
      && (Incoming(seg.edges, x) == [] <==> forall l :: l in seg.edges ==> l.sink != x)
  {
    var seg := Segments(locs, links, components, next)[k];
    MakeGraphLayerShape(locs, links, components, next, k);
    OutgoingByIdentity(seg.nodes, seg.edges, x);
    IncomingByIdentity(seg.nodes, seg.edges, x);
  }
}
