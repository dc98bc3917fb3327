/**
 * What `make_graph` builds, stated over the specification functions of ServiceGraphBuilder
 * (which `MakeGraph` is proved to compute): the copies and their ids, the edges of each layer
 * with their directions and costs, the dummy assignment locations and their joins, the order
 * of the segments, the failure case and the number of nodes.
 */
module ServiceGraphProperties {
  import opened Wrappers
  import opened Seqs
  import opened Locations
  import opened Links
  import opened Topology
  import opened ServiceGraphBuilder

  // ---------------------------------------------------------------------------
  // Copies and dummies

  /** Copy j of a location list is location j under the id `next + j`. */
  lemma {:induction false} CopyAllAt(locs: seq<Location>, next: nat)
    ensures forall j :: 0 <= j < |locs| ==> CopyAll(locs, next)[j] == CopyOf(locs[j], next + j)
    decreases |locs|
  {
    if locs != [] {
      CopyAllAt(locs[..|locs| - 1], next);
    }
  }

  /**
   * One dummy per `node` location, in list order: dummy j is described `<node j>_<component>`,
   * has type `dummy`, no resources and the id `next + j`.
   */
  lemma {:induction false} DummyNodesAt(locs: seq<Location>, component: string, next: nat)
    ensures |DummyNodes(locs, component, next)| == |LocationsByType(locs, Node)|
    ensures forall j :: 0 <= j < |LocationsByType(locs, Node)| ==>
      DummyNodes(locs, component, next)[j]
        == Location(next + j, LocationsByType(locs, Node)[j].description + "_" + component, Dummy, None, None)
    decreases |locs|
  {
    if locs != [] {
      var init := locs[..|locs| - 1];
      var l := locs[|locs| - 1];
      DummyNodesAt(init, component, next);
      LocationsByTypeAppend(init, [l], Node);
      assert init + [l] == locs;
      var nodes := LocationsByType(init, Node);
      var prev := DummyNodes(init, component, next);
      if l.ltype == Node {
        assert LocationsByType([l], Node) == [l];
        var d := Location(next + |prev|, l.description + "_" + component, Dummy, None, None);
        assert DummyNodes(locs, component, next) == prev + [d];
        assert LocationsByType(locs, Node) == nodes + [l];
        forall j | 0 <= j < |nodes| + 1
          ensures (prev + [d])[j] == Location(next + j, (nodes + [l])[j].description + "_" + component, Dummy, None, None)
        {
          if j < |nodes| {
            assert (prev + [d])[j] == prev[j] && (nodes + [l])[j] == nodes[j];
          }
        }
      } else {
        assert LocationsByType([l], Node) == [];
        assert LocationsByType(locs, Node) == nodes + [];
      }
    }
  }

  // ---------------------------------------------------------------------------
  // Edges of the layers

  /** The copies of physical link `e` made for the pair (`s`, `t`): `s -> t`, and `t -> s` when two-way. */
  lemma EdgeCopiesAre(e: Link, s: Location, t: Location, y: Link)
    ensures y in EdgeCopies(e, s, t) <==> y == CostOne(e, s, t) || (e.twoWay && y == CostOne(e, t, s))
    ensures y in EdgeCopies(e, s, t) ==>
      && y.Cost() == Success(1) && y.Bandwidth() == e.Bandwidth() && y.Latency() == e.Latency()
      && y.twoWay == e.twoWay && {y.source, y.sink} == {s, t}
  {
  }

  /**
   * An edge-copying double loop over `srcs` x `snks` yields exactly the copies of `e` onto the
   * pairs whose descriptions match `e`'s endpoints, with (`reversed` false) or against its direction.
   */
  lemma CopyEdgesMember(e: Link, srcs: seq<Location>, snks: seq<Location>, reversed: bool, y: Link)
    ensures y in Pairs(srcs, snks, CopyFn(e, reversed)) <==>
      exists s, t :: s in srcs && t in snks && Matches(e, s, t, reversed) && y in EdgeCopies(e, s, t)
  {
    if y in Pairs(srcs, snks, CopyFn(e, reversed)) {
      CopiedFrom(e, srcs, snks, reversed, y);
    } else {
      NotCopiedFrom(e, srcs, snks, reversed, y);
    }
  }

  lemma CopiedFrom(e: Link, srcs: seq<Location>, snks: seq<Location>, reversed: bool, y: Link)
    requires y in Pairs(srcs, snks, CopyFn(e, reversed))
    ensures exists s, t :: s in srcs && t in snks && Matches(e, s, t, reversed) && y in EdgeCopies(e, s, t)
  {
    var f := CopyFn(e, reversed);
    PairsMember(srcs, snks, f, y);
    var i, j :| 0 <= i < |srcs| && 0 <= j < |snks| && y in f(srcs[i], snks[j]);
    CopyFnAt(e, reversed, srcs[i], snks[j]);
  }

  lemma NotCopiedFrom(e: Link, srcs: seq<Location>, snks: seq<Location>, reversed: bool, y: Link)
    requires y !in Pairs(srcs, snks, CopyFn(e, reversed))
    ensures forall s, t :: s in srcs && t in snks ==> !(Matches(e, s, t, reversed) && y in EdgeCopies(e, s, t))
  {
    var f := CopyFn(e, reversed);
    PairsMember(srcs, snks, f, y);
    forall s, t | s in srcs && t in snks
      ensures !(Matches(e, s, t, reversed) && y in EdgeCopies(e, s, t))
    {
      var i :| 0 <= i < |srcs| && srcs[i] == s;
      var j :| 0 <= j < |snks| && snks[j] == t;
      CopyFnAt(e, reversed, s, t);
      assert y !in f(srcs[i], snks[j]);
    }
  }

  lemma CopyFnAt(e: Link, reversed: bool, s: Location, t: Location)
    ensures CopyFn(e, reversed)(s, t) == if Matches(e, s, t, reversed) then EdgeCopies(e, s, t) else []
  {
  }

  /** Copies of link `e` between the tiers of a layer: some matching pair carries them. */
  ghost predicate CopiedBetween(links: seq<Link>, srcs: seq<Location>, snks: seq<Location>, reversed: bool, y: Link)
  {
    exists e, s, t :: e in links && s in srcs && t in snks && Matches(e, s, t, reversed) && y in EdgeCopies(e, s, t)
  }

  /** The edges an entry or exit layer makes for all physical links: the union of each link's double loop. */
  lemma LayerEdgesMember(links: seq<Link>, nodes: seq<Location>, reversed: bool, y: Link)
    ensures y in ConcatMap(links, LayerFn(nodes, reversed)) <==> CopiedBetween(links, nodes, nodes, reversed, y)
  {
    var f := LayerFn(nodes, reversed);
    ConcatMapMember(links, f, y);
    if y in ConcatMap(links, f) {
      var i :| 0 <= i < |links| && y in f(links[i]);
      CopyEdgesMember(links[i], nodes, nodes, reversed, y);
    }
    if CopiedBetween(links, nodes, nodes, reversed, y) {
      var e, s, t :| e in links && s in nodes && t in nodes && Matches(e, s, t, reversed) && y in EdgeCopies(e, s, t);
      var i :| 0 <= i < |links| && links[i] == e;
      CopyEdgesMember(e, nodes, nodes, reversed, y);
    }
  }

  /** The zero-cost shortcut from an out copy to an in copy of the same description. */
  ghost predicate Shortcut(outs: seq<Location>, ins: seq<Location>, y: Link)
  {
    exists s, t :: s in outs && t in ins && s.description == t.description && y == ZeroCostLink(s, t)
  }

  lemma ShortcutsMember(outs: seq<Location>, ins: seq<Location>, y: Link)
    ensures y in Pairs(outs, ins, ShortcutFn()) <==> Shortcut(outs, ins, y)
  {
    var f := ShortcutFn();
    PairsMember(outs, ins, f, y);
    if Shortcut(outs, ins, y) {
      var s, t :| s in outs && t in ins && s.description == t.description && y == ZeroCostLink(s, t);
      var i :| 0 <= i < |outs| && outs[i] == s;
      var j :| 0 <= j < |ins| && ins[j] == t;
      assert y in f(outs[i], ins[j]);
    }
  }

  lemma InterFnAt(outs: seq<Location>, mid: seq<Location>, ins: seq<Location>, e: Link)
    ensures InterFn(outs, mid, ins)(e)
      == Pairs(outs, outs, CopyFn(e, true)) + Pairs(ins, ins, CopyFn(e, false))
         + Pairs(outs, mid, CopyFn(e, true)) + Pairs(mid, ins, CopyFn(e, false))
  {
  }

  /** Every edge an inter-component layer makes for the physical links is a copy between two of its tiers. */
  lemma InterEdgesSound(links: seq<Link>, outs: seq<Location>, mid: seq<Location>, ins: seq<Location>, y: Link)
    requires y in ConcatMap(links, InterFn(outs, mid, ins))
    ensures || CopiedBetween(links, outs, outs, true, y)
            || CopiedBetween(links, ins, ins, false, y)
            || CopiedBetween(links, outs, mid, true, y)
            || CopiedBetween(links, mid, ins, false, y)
  {
    ConcatMapMember(links, InterFn(outs, mid, ins), y);
    var i :| 0 <= i < |links| && y in InterFn(outs, mid, ins)(links[i]);
    var e := links[i];
    InterFnAt(outs, mid, ins, e);
    CopyEdgesMember(e, outs, outs, true, y);
    CopyEdgesMember(e, ins, ins, false, y);
    CopyEdgesMember(e, outs, mid, true, y);
    CopyEdgesMember(e, mid, ins, false, y);
  }

  /** Each of the four kinds of copy is among the edges an inter-component layer makes. */
  lemma InterEdgesComplete(links: seq<Link>, outs: seq<Location>, mid: seq<Location>, ins: seq<Location>,
                           srcs: seq<Location>, snks: seq<Location>, reversed: bool, y: Link)
    requires || (srcs == outs && snks == outs && reversed)
             || (srcs == ins && snks == ins && !reversed)
             || (srcs == outs && snks == mid && reversed)
             || (srcs == mid && snks == ins && !reversed)
    requires CopiedBetween(links, srcs, snks, reversed, y)
    ensures y in ConcatMap(links, InterFn(outs, mid, ins))
  {
    var e, s, t :| e in links && s in srcs && t in snks && Matches(e, s, t, reversed) && y in EdgeCopies(e, s, t);
    var i :| 0 <= i < |links| && links[i] == e;
    CopyEdgesMember(e, srcs, snks, reversed, y);
    InterFnAt(outs, mid, ins, e);
    ConcatMapMember(links, InterFn(outs, mid, ins), y);
  }

  // ---------------------------------------------------------------------------
  // The three kinds of layer

  /** Every edge copied between `srcs` and `snks` costs 1 and runs between a source and a sink tier location. */
  lemma CopiedCost(links: seq<Link>, srcs: seq<Location>, snks: seq<Location>, reversed: bool, y: Link)
    requires CopiedBetween(links, srcs, snks, reversed, y)
    ensures y.Cost() == Success(1)
    ensures (y.source in srcs && y.sink in snks) || (y.source in snks && y.sink in srcs)
  {
    var e, s, t :| e in links && s in srcs && t in snks && Matches(e, s, t, reversed) && y in EdgeCopies(e, s, t);
    EdgeCopiesAre(e, s, t, y);
  }

  /**
   * Layer 0: copy j of the grouped locations has id `next + j`; its edges are exactly the cost-1
   * copies of the physical links with their direction (and back again for a two-way link).
   */
  lemma EntryLayer(layers: seq<seq<Location>>, links: seq<Link>, next: nat)
    ensures var seg := EntrySegment(layers, links, next);
      && |seg.nodes| == |Concat(layers)|
      && (forall j :: 0 <= j < |seg.nodes| ==> seg.nodes[j] == CopyOf(Concat(layers)[j], next + j))
      && (forall y :: y in seg.edges <==> CopiedBetween(links, seg.nodes, seg.nodes, false, y))
      && (forall y :: y in seg.edges ==> y.Cost() == Success(1) && y.source in seg.nodes && y.sink in seg.nodes)
  {
    var seg := EntrySegment(layers, links, next);
    CopyAllAt(Concat(layers), next);
    forall y
      ensures y in seg.edges <==> CopiedBetween(links, seg.nodes, seg.nodes, false, y)
      ensures y in seg.edges ==> y.Cost() == Success(1) && y.source in seg.nodes && y.sink in seg.nodes
    {
      LayerEdgesMember(links, seg.nodes, false, y);
      if y in seg.edges {
        CopiedCost(links, seg.nodes, seg.nodes, false, y);
      }
    }
  }

  /**
   * Layer n: the same copies under ids from `next`, but every physical link a -> b is copied as
   * copy(b) -> copy(a) (and forward too for a two-way link), at cost 1.
   */
  lemma ExitLayer(layers: seq<seq<Location>>, links: seq<Link>, next: nat)
    ensures var seg := ExitSegment(layers, links, next);
      && |seg.nodes| == |Concat(layers)|
      && (forall j :: 0 <= j < |seg.nodes| ==> seg.nodes[j] == CopyOf(Concat(layers)[j], next + j))
      && (forall y :: y in seg.edges <==> CopiedBetween(links, seg.nodes, seg.nodes, true, y))
      && (forall y :: y in seg.edges ==> y.Cost() == Success(1) && y.source in seg.nodes && y.sink in seg.nodes)
  {
    var seg := ExitSegment(layers, links, next);
    CopyAllAt(Concat(layers), next);
    forall y
      ensures y in seg.edges <==> CopiedBetween(links, seg.nodes, seg.nodes, true, y)
      ensures y in seg.edges ==> y.Cost() == Success(1) && y.source in seg.nodes && y.sink in seg.nodes
    {
      LayerEdgesMember(links, seg.nodes, true, y);
      if y in seg.edges {
        CopiedCost(links, seg.nodes, seg.nodes, true, y);
      }
    }
  }

  /**
   * An inter-component layer: out copies, the second tier itself (mid) and in copies, in that
   * order; out copy j and in copy j of lower-tier location j have ids `next + 2j` and `next + 2j + 1`.
   * Its edges are the cost-1 copies out -> out and out -> mid against the physical direction,
   * in -> in and mid -> in with it, and the zero-cost shortcuts from out to in copies.
   */
  lemma InterLayer(layers: seq<seq<Location>>, links: seq<Link>, next: nat)
    requires |layers| >= 2
    ensures var lower := LowerTiers(layers);
      var outs := OutInCopies(lower, next).0;
      var ins := OutInCopies(lower, next).1;
      var seg := InterSegment(layers, links, next);
      && seg.nodes == outs + layers[1] + ins
      && |outs| == |lower| && |ins| == |lower|
      && (forall j :: 0 <= j < |lower| ==> outs[j] == CopyOf(lower[j], next + 2 * j) && ins[j] == CopyOf(lower[j], next + 2 * j + 1))
      && (forall y :: y in seg.edges <==>
            || CopiedBetween(links, outs, outs, true, y)
            || CopiedBetween(links, ins, ins, false, y)
            || CopiedBetween(links, outs, layers[1], true, y)
            || CopiedBetween(links, layers[1], ins, false, y)
            || Shortcut(outs, ins, y))
      && (forall y :: y in seg.edges ==>
            || y.Cost() == Success(1)
            || (y.Cost() == Success(0) && !y.twoWay && y.source in outs && y.sink in ins && y.source.description == y.sink.description))
  {
    var lower := LowerTiers(layers);
    var outs := OutInCopies(lower, next).0;
    var ins := OutInCopies(lower, next).1;
    var mid := layers[1];
    var seg := InterSegment(layers, links, next);
    OutInCopiesAt(lower, next);
    assert seg.edges == ConcatMap(links, InterFn(outs, mid, ins)) + Pairs(outs, ins, ShortcutFn());
    forall y
      ensures y in seg.edges <==>
            || CopiedBetween(links, outs, outs, true, y)
            || CopiedBetween(links, ins, ins, false, y)
            || CopiedBetween(links, outs, mid, true, y)
            || CopiedBetween(links, mid, ins, false, y)
            || Shortcut(outs, ins, y)
    {
      ShortcutsMember(outs, ins, y);
      if y in ConcatMap(links, InterFn(outs, mid, ins)) {
        InterEdgesSound(links, outs, mid, ins, y);
      }
      if CopiedBetween(links, outs, outs, true, y) {
        InterEdgesComplete(links, outs, mid, ins, outs, outs, true, y);
      }
      if CopiedBetween(links, ins, ins, false, y) {
        InterEdgesComplete(links, outs, mid, ins, ins, ins, false, y);
      }
      if CopiedBetween(links, outs, mid, true, y) {
        InterEdgesComplete(links, outs, mid, ins, outs, mid, true, y);
      }
      if CopiedBetween(links, mid, ins, false, y) {
        InterEdgesComplete(links, outs, mid, ins, mid, ins, false, y);
      }
    }
    forall y | y in seg.edges
      ensures || y.Cost() == Success(1)
              || (y.Cost() == Success(0) && !y.twoWay && y.source in outs && y.sink in ins && y.source.description == y.sink.description)
    {
      if CopiedBetween(links, outs, outs, true, y) {
        CopiedCost(links, outs, outs, true, y);
      } else if CopiedBetween(links, ins, ins, false, y) {
        CopiedCost(links, ins, ins, false, y);
      } else if CopiedBetween(links, outs, mid, true, y) {
        CopiedCost(links, outs, mid, true, y);
      } else if CopiedBetween(links, mid, ins, false, y) {
        CopiedCost(links, mid, ins, false, y);
      }
    }
  }

  /** Locations whose descriptions are pairwise different. */
  ghost predicate DistinctDescriptions(locs: seq<Location>)
  {
    forall i, j :: 0 <= i < j < |locs| ==> locs[i].description != locs[j].description
  }

  /** Scanning the in copies for out copy i finds only in copy i. */
  lemma {:induction false} ShortcutRow(outs: seq<Location>, ins: seq<Location>, i: nat, k: nat)
    requires |outs| == |ins| && i < |outs| && k <= |ins|
    requires forall j :: 0 <= j < |ins| ==> (ins[j].description == outs[i].description <==> j == i)
    ensures Row(outs[i], ins[..k], ShortcutFn()) == if i < k then [ZeroCostLink(outs[i], ins[i])] else []
    decreases k
  {
    if k > 0 {
      assert ins[..k][..k - 1] == ins[..k - 1];
      ShortcutRow(outs, ins, i, k - 1);
    }
  }

  /** With distinct descriptions, out copy i has one shortcut: to in copy i. */
  lemma CopyShortcutRow(lower: seq<Location>, next: nat, i: nat)
    requires DistinctDescriptions(lower) && i < |lower|
    ensures var (outs, ins) := OutInCopies(lower, next);
      Row(outs[i], ins, ShortcutFn()) == [ZeroCostLink(outs[i], ins[i])]
  {
    var (outs, ins) := OutInCopies(lower, next);
    OutInCopiesAt(lower, next);
    forall j | 0 <= j < |ins| ensures ins[j].description == outs[i].description <==> j == i {
      if j < i {
        assert lower[j].description != lower[i].description;
      } else if i < j {
        assert lower[i].description != lower[j].description;
      }
    }
    ShortcutRow(outs, ins, i, |ins|);
    assert ins[..|ins|] == ins;
  }

  /**
   * When the lower tiers' descriptions are all different, every out copy gets exactly one
   * shortcut, to the in copy of the same location: the shortcuts are out j -> in j, in order.
   */
  lemma ShortcutsExact(lower: seq<Location>, next: nat)
    requires DistinctDescriptions(lower)
    ensures var outs := OutInCopies(lower, next).0;
      var ins := OutInCopies(lower, next).1;
      var shortcuts := Pairs(outs, ins, ShortcutFn());
      && |shortcuts| == |lower|
      && forall j :: 0 <= j < |lower| ==> shortcuts[j] == ZeroCostLink(outs[j], ins[j])
  {
    var outs := OutInCopies(lower, next).0;
    var ins := OutInCopies(lower, next).1;
    forall i | 0 <= i < |outs| ensures Row(outs[i], ins, ShortcutFn()) == [ZeroCostLink(outs[i], ins[i])] {
      CopyShortcutRow(lower, next, i);
    }
    PairsOfSingletons(outs, ins, ShortcutFn(), seq(|outs|, j requires 0 <= j < |outs| => ZeroCostLink(outs[j], ins[j])));
  }

  // ---------------------------------------------------------------------------
  // Dummy assignment locations and their joins

  /** A zero-cost join from a layer-i location with no outgoing edge in layer i to its dummy. */
  ghost predicate PreJoined(pre: Segment, dummies: seq<Location>, component: string, y: Link)
  {
    exists s, d :: && s in pre.nodes && d in dummies && d.description == s.description + "_" + component
                   && Outgoing(pre.edges, s) == [] && y == ZeroCostLink(s, d)
  }

  /** A zero-cost join from a dummy to a layer-(i + 1) location with no incoming edge in layer i + 1. */
  ghost predicate PostJoined(dummies: seq<Location>, post: Segment, component: string, y: Link)
  {
    exists d, t :: && d in dummies && t in post.nodes && d.description == t.description + "_" + component
                   && Incoming(post.edges, t) == [] && y == ZeroCostLink(d, t)
  }

  lemma PreJoinMember(pre: Segment, dummies: seq<Location>, component: string, y: Link)
    ensures y in Pairs(pre.nodes, dummies, PreJoinFn(pre, component)) <==> PreJoined(pre, dummies, component, y)
  {
    var f := PreJoinFn(pre, component);
    PairsMember(pre.nodes, dummies, f, y);
    if PreJoined(pre, dummies, component, y) {
      var s, d :| && s in pre.nodes && d in dummies && d.description == s.description + "_" + component
                  && Outgoing(pre.edges, s) == [] && y == ZeroCostLink(s, d);
      var i :| 0 <= i < |pre.nodes| && pre.nodes[i] == s;
      var j :| 0 <= j < |dummies| && dummies[j] == d;
      assert y in f(pre.nodes[i], dummies[j]);
    }
  }

  lemma PostJoinMember(dummies: seq<Location>, post: Segment, component: string, y: Link)
    ensures y in Pairs(dummies, post.nodes, PostJoinFn(post, component)) <==> PostJoined(dummies, post, component, y)
  {
    var f := PostJoinFn(post, component);
    PairsMember(dummies, post.nodes, f, y);
    if PostJoined(dummies, post, component, y) {
      var d, t :| && d in dummies && t in post.nodes && d.description == t.description + "_" + component
                  && Incoming(post.edges, t) == [] && y == ZeroCostLink(d, t);
      var i :| 0 <= i < |dummies| && dummies[i] == d;
      var j :| 0 <= j < |post.nodes| && post.nodes[j] == t;
      assert y in f(dummies[i], post.nodes[j]);
    }
  }

  /**
   * The segment of a component: one dummy per node location (see DummyNodesAt); its edges are
   * exactly the pre joins and the post joins, each zero-cost, one-way and touching a dummy.
   */
  lemma JoinEdges(locs: seq<Location>, component: string, pre: Segment, post: Segment, next: nat)
    ensures var seg := JoinSegment(locs, component, pre, post, next);
      && (forall y :: y in seg.edges <==> PreJoined(pre, seg.nodes, component, y) || PostJoined(seg.nodes, post, component, y))
      && (forall y :: y in seg.edges ==> y.Cost() == Success(0) && !y.twoWay && (y.sink in seg.nodes || y.source in seg.nodes))
  {
    var seg := JoinSegment(locs, component, pre, post, next);
    forall y
      ensures y in seg.edges <==> PreJoined(pre, seg.nodes, component, y) || PostJoined(seg.nodes, post, component, y)
    {
      PreJoinMember(pre, seg.nodes, component, y);
      PostJoinMember(seg.nodes, post, component, y);
    }
  }

  // ---------------------------------------------------------------------------
  // The segments in order and the whole graph

  /** Layer k of the first K layers is layer k built with the counter where layers 0 .. k-1 left it. */
  lemma LayersUpToAt(layers: seq<seq<Location>>, links: seq<Link>, n: nat, bound: nat, next: nat, k: nat)
    requires k < bound <= n + 1 && (bound <= 1 || HasMidTier(layers, n))
    ensures LayersUpTo(layers, links, n, bound, next)[k] == LayerSegment(layers, links, n, k, LayerStart(layers, n, k, next))
  {
  }

  /** Component segment i of the first I is built with the counter at `JoinStart`. */
  lemma JoinsUpToAt(locs: seq<Location>, components: seq<string>, layerSegs: seq<Segment>, bound: nat, next: nat, i: nat)
    requires i < bound <= |components| && bound < |layerSegs|
    ensures JoinsUpTo(locs, components, layerSegs, bound, next)[i]
      == JoinSegment(locs, components[i], layerSegs[i], layerSegs[i + 1], JoinStart(locs, i, next))
  {
  }

  lemma {:induction false} AllNodesAppend(a: seq<Segment>, b: seq<Segment>)
    ensures AllNodes(a + b) == AllNodes(a) + AllNodes(b)
    decreases |b|
  {
    if b == [] {
      assert a + b == a;
    } else {
      var b', last := b[..|b| - 1], b[|b| - 1];
      assert (a + b)[..|a + b| - 1] == a + b';
      assert (a + b)[|a + b| - 1] == last;
      AllNodesAppend(a, b');
      calc {
        AllNodes(a + b);
        AllNodes(a + b') + last.nodes;
        (AllNodes(a) + AllNodes(b')) + last.nodes;
        AllNodes(a) + (AllNodes(b') + last.nodes);
        AllNodes(a) + AllNodes(b);
      }
    }
  }

  lemma {:induction false} AllEdgesAppend(a: seq<Segment>, b: seq<Segment>)
    ensures AllEdges(a + b) == AllEdges(a) + AllEdges(b)
    decreases |b|
  {
    if b == [] {
      assert a + b == a;
    } else {
      var b', last := b[..|b| - 1], b[|b| - 1];
      assert (a + b)[..|a + b| - 1] == a + b';
      assert (a + b)[|a + b| - 1] == last;
      AllEdgesAppend(a, b');
      calc {
        AllEdges(a + b);
        AllEdges(a + b') + last.edges;
        (AllEdges(a) + AllEdges(b')) + last.edges;
        AllEdges(a) + (AllEdges(b') + last.edges);
        AllEdges(a) + AllEdges(b);
      }
    }
  }

  /** Concatenating the segments of `a + b` concatenates those of `a`, then those of `b`. */
  lemma AllAppend(a: seq<Segment>, b: seq<Segment>)
    ensures AllNodes(a + b) == AllNodes(a) + AllNodes(b)
    ensures AllEdges(a + b) == AllEdges(a) + AllEdges(b)
  {
    AllNodesAppend(a, b);
    AllEdgesAppend(a, b);
  }

  lemma {:induction false} AllNodesMember(segs: seq<Segment>, x: Location)
    ensures x in AllNodes(segs) <==> exists k :: 0 <= k < |segs| && x in segs[k].nodes
    decreases |segs|
  {
    if segs != [] {
      var init := segs[..|segs| - 1];
      var last := segs[|segs| - 1];
      AllNodesMember(init, x);
      assert AllNodes(segs) == AllNodes(init) + last.nodes;
      if x in AllNodes(init) {
        var k :| 0 <= k < |init| && x in init[k].nodes;
        assert segs[k] == init[k];
      }
      if k :| 0 <= k < |segs| && x in segs[k].nodes {
        if k < |init| {
          assert segs[k] == init[k];
        }
      }
    }
  }

  lemma {:induction false} AllEdgesMember(segs: seq<Segment>, y: Link)
    ensures y in AllEdges(segs) <==> exists k :: 0 <= k < |segs| && y in segs[k].edges
    decreases |segs|
  {
    if segs != [] {
      var init := segs[..|segs| - 1];
      var last := segs[|segs| - 1];
      AllEdgesMember(init, y);
      assert AllEdges(segs) == AllEdges(init) + last.edges;
      if y in AllEdges(init) {
        var k :| 0 <= k < |init| && y in init[k].edges;
        assert segs[k] == init[k];
      }
      if k :| 0 <= k < |segs| && y in segs[k].edges {
        if k < |init| {
          assert segs[k] == init[k];
        }
      }
    }
  }

  /** The concatenation keeps every node and edge of every segment and adds none. */
  lemma AllMember(segs: seq<Segment>, x: Location, y: Link)
    ensures x in AllNodes(segs) <==> exists k :: 0 <= k < |segs| && x in segs[k].nodes
    ensures y in AllEdges(segs) <==> exists k :: 0 <= k < |segs| && y in segs[k].edges
  {
    AllNodesMember(segs, x);
    AllEdgesMember(segs, y);
  }

  /** Nodes of an inter-component layer: two copies of each lower-tier location and the second tier. */
  function InterSize(layers: seq<seq<Location>>): nat
  {
    2 * |LowerTiers(layers)| + (if |layers| >= 2 then |layers[1]| else 0)
  }

  /** From `a1 = c + (m - 1) x` and `a = a1 + x` follows `a = c + m x`. */
  lemma LinearStep(a: int, a1: int, c: int, m: nat, x: nat)
    requires m >= 1 && a1 == c + (m - 1) * x && a == a1 + x
    ensures a == c + m * x
  {
  }

  lemma InterSegmentSize(layers: seq<seq<Location>>, links: seq<Link>, next: nat)
    requires |layers| >= 2
    ensures |InterSegment(layers, links, next).nodes| == InterSize(layers)
  {
  }

  /** How many nodes layer k of n has. */
  function LayerSize(layers: seq<seq<Location>>, n: nat, k: nat): nat
  {
    if k == 0 || k == n then |Concat(layers)| else InterSize(layers)
  }

  /** How many nodes layers 0 .. k-1 have together. */
  function LayerSizes(layers: seq<seq<Location>>, n: nat, k: nat): nat
    decreases k
  {
    if k == 0 then 0 else LayerSizes(layers, n, k - 1) + LayerSize(layers, n, k - 1)
  }

  lemma LayerSegmentSize(layers: seq<seq<Location>>, links: seq<Link>, n: nat, k: nat, next: nat)
    requires k == 0 || k == n || |layers| >= 2
    ensures |LayerSegment(layers, links, n, k, next).nodes| == LayerSize(layers, n, k)
  {
    if k != 0 && k != n {
      InterSegmentSize(layers, links, next);
    }
  }

  /** Segments whose sizes are those of the first layers hold the sum of those sizes. */
  lemma {:induction false} AllNodesSizes(segs: seq<Segment>, layers: seq<seq<Location>>, n: nat)
    requires forall j :: 0 <= j < |segs| ==> |segs[j].nodes| == LayerSize(layers, n, j)
    ensures |AllNodes(segs)| == LayerSizes(layers, n, |segs|)
    decreases |segs|
  {
    if segs != [] {
      var init := segs[..|segs| - 1];
      assert forall j :: 0 <= j < |init| ==> init[j] == segs[j];
      AllNodesSizes(init, layers, n);
    }
  }

  /** The layers built so far hold the sum of their sizes. */
  lemma LayersNodes(layers: seq<seq<Location>>, links: seq<Link>, n: nat, k: nat, next: nat)
    requires k <= n + 1 && (k <= 1 || HasMidTier(layers, n))
    ensures |AllNodes(LayersUpTo(layers, links, n, k, next))| == LayerSizes(layers, n, k)
  {
    var segs := LayersUpTo(layers, links, n, k, next);
    forall j | 0 <= j < k
      ensures |segs[j].nodes| == LayerSize(layers, n, j)
    {
      LayersUpToAt(layers, links, n, k, next, j);
      LayerSegmentSize(layers, links, n, j, LayerStart(layers, n, j, next));
    }
    AllNodesSizes(segs, layers, n);
  }

  /** The entry layer and m inter layers after it (m < n) hold C + m(2L + M) nodes. */
  lemma {:induction false} LayersPrefixSizes(layers: seq<seq<Location>>, n: nat, m: nat)
    requires m < n
    ensures LayerSizes(layers, n, m + 1) == |Concat(layers)| + m * InterSize(layers)
    decreases m
  {
    if m > 0 {
      LayersPrefixSizes(layers, n, m - 1);
      LinearStep(LayerSizes(layers, n, m + 1), LayerSizes(layers, n, m), |Concat(layers)|, m, InterSize(layers));
    }
  }

  /** All layers 0 .. n: how many nodes, how many ids. */
  lemma LayersCount(layers: seq<seq<Location>>, links: seq<Link>, n: nat, next: nat)
    requires HasMidTier(layers, n)
    ensures |AllNodes(LayersUpTo(layers, links, n, n + 1, next))|
      == (if n == 0 then |Concat(layers)| else 2 * |Concat(layers)| + (n - 1) * InterSize(layers))
    ensures LayerStart(layers, n, n + 1, next)
      == next + (if n == 0 then |Concat(layers)| else 2 * |Concat(layers)| + (n - 1) * (2 * |LowerTiers(layers)|))
  {
    LayersNodes(layers, links, n, n + 1, next);
    if n > 0 {
      LayersPrefixSizes(layers, n, n - 1);
    }
  }

  /** Segments of d nodes each hold d nodes per segment. */
  lemma {:induction false} AllNodesUniform(segs: seq<Segment>, d: nat)
    requires forall j :: 0 <= j < |segs| ==> |segs[j].nodes| == d
    ensures |AllNodes(segs)| == |segs| * d
    decreases |segs|
  {
    if segs != [] {
      var init := segs[..|segs| - 1];
      assert forall j :: 0 <= j < |init| ==> init[j] == segs[j];
      AllNodesUniform(init, d);
      assert |segs| * d == |init| * d + d;
    }
  }

  /** Component segments 0 .. I-1: I times one dummy per node location. */
  lemma JoinsCount(locs: seq<Location>, components: seq<string>, layerSegs: seq<Segment>, bound: nat, next: nat)
    requires bound <= |components| && bound < |layerSegs|
    ensures |AllNodes(JoinsUpTo(locs, components, layerSegs, bound, next))| == bound * |LocationsByType(locs, Node)|
  {
    var segs := JoinsUpTo(locs, components, layerSegs, bound, next);
    forall j | 0 <= j < bound
      ensures |segs[j].nodes| == |LocationsByType(locs, Node)|
    {
      JoinsUpToAt(locs, components, layerSegs, bound, next, j);
      DummyNodesCount(locs, components[j], JoinStart(locs, j, next));
    }
    AllNodesUniform(segs, |LocationsByType(locs, Node)|);
  }

  /** Two non-dummy locations of different types. */
  ghost predicate TwoTypes(locs: seq<Location>)
  {
    exists a, b :: a in locs && b in locs && a.ltype != Dummy && b.ltype != Dummy && a.ltype != b.ltype
  }

  /** Two groups of `getLocationsByTypes` hold locations of two different types. */
  lemma TwoGroupsTwoTypes(locs: seq<Location>)
    requires |LocationsByTypes(locs)| >= 2
    ensures TwoTypes(locs)
  {
    var groups := LocationsByTypes(locs);
    var types := GroupTypes(locs, Tiers);
    LocationsByTypesGroups(locs);
    assert groups[0] != [] && groups[0] == LocationsByType(locs, types[0]);
    assert groups[1] != [] && groups[1] == LocationsByType(locs, types[1]);
    var a := groups[0][0];
    var b := groups[1][0];
    assert a in groups[0] && b in groups[1];
    assert Rank(types[0]) < Rank(types[1]);
  }

  /** Two populated types give `getLocationsByTypes` two groups. */
  lemma TwoMembers<T>(s: seq<T>, a: T, b: T)
    requires a in s && b in s && a != b
    ensures |s| >= 2
  {
  }

  lemma TwoTypesTwoGroups(locs: seq<Location>)
    requires TwoTypes(locs)
    ensures |LocationsByTypes(locs)| >= 2
  {
    var types := GroupTypes(locs, Tiers);
    var a, b :| a in locs && b in locs && a.ltype != Dummy && b.ltype != Dummy && a.ltype != b.ltype;
    assert a.ltype in types by {
      assert a in LocationsByType(locs, a.ltype);
      LocationsByTypesComplete(locs, a.ltype);
    }
    assert b.ltype in types by {
      assert b in LocationsByType(locs, b.ltype);
      LocationsByTypesComplete(locs, b.ltype);
    }
    TwoMembers(types, a.ltype, b.ltype);
    assert |LocationsByTypes(locs)| == |types| by {
      LocationsByTypesGroups(locs);
    }
  }

  /**
   * `make_graph` fails (reading `layers[1]`) exactly when the service has two or more components
   * and the topology populates fewer than two tiers; the counter has then moved past the entry copies.
   */
  lemma MakeGraphFails(locs: seq<Location>, links: seq<Link>, components: seq<string>, next: nat)
    ensures MakeGraphSpec(locs, links, components, next).result.Failure?
      <==> |components| >= 2 && !TwoTypes(locs)
    ensures MakeGraphSpec(locs, links, components, next).result.Failure? ==>
      MakeGraphSpec(locs, links, components, next).next == next + |Concat(LocationsByTypes(locs))|
  {
    if |LocationsByTypes(locs)| >= 2 {
      TwoGroupsTwoTypes(locs);
    }
    if TwoTypes(locs) {
      TwoTypesTwoGroups(locs);
    }
  }

  /** A successful build is the concatenation of `Segments`. */
  lemma SuccessIsSegments(locs: seq<Location>, links: seq<Link>, components: seq<string>, next: nat)
    requires MakeGraphSpec(locs, links, components, next).result.Success?
    ensures HasMidTier(LocationsByTypes(locs), |components|)
    ensures var segs := Segments(locs, links, components, next);
      MakeGraphSpec(locs, links, components, next).result.value == Segment(AllNodes(segs), AllEdges(segs))
  {
  }

  /**
   * A successful `make_graph` returns exactly the nodes and edges of its 2n + 1 segments:
   * nothing is dropped and nothing is added.
   */
  lemma MakeGraphMembers(locs: seq<Location>, links: seq<Link>, components: seq<string>, next: nat)
    requires MakeGraphSpec(locs, links, components, next).result.Success?
    ensures HasMidTier(LocationsByTypes(locs), |components|)
    ensures var segs := Segments(locs, links, components, next);
      var graph := MakeGraphSpec(locs, links, components, next).result.value;
      && |segs| == 2 * |components| + 1
      && (forall x :: x in graph.nodes <==> exists k :: 0 <= k < |segs| && x in segs[k].nodes)
      && (forall y :: y in graph.edges <==> exists k :: 0 <= k < |segs| && y in segs[k].edges)
  {
    SuccessIsSegments(locs, links, components, next);
    var segs := Segments(locs, links, components, next);
    var graph := Segment(AllNodes(segs), AllEdges(segs));
    forall x ensures x in graph.nodes <==> exists k :: 0 <= k < |segs| && x in segs[k].nodes {
      AllMember(segs, x, ZeroCostLink(x, x));
    }
    forall y ensures y in graph.edges <==> exists k :: 0 <= k < |segs| && y in segs[k].edges {
      AllMember(segs, y.source, y);
    }
  }

  /** The first n + 1 segments are layers 0 .. n, each built with the counter where the previous one left it. */
  lemma SegmentsLayers(locs: seq<Location>, links: seq<Link>, components: seq<string>, next: nat, k: nat)
    requires HasMidTier(LocationsByTypes(locs), |components|) && k <= |components|
    ensures Segments(locs, links, components, next)[k]
      == LayerSegment(LocationsByTypes(locs), links, |components|, k, LayerStart(LocationsByTypes(locs), |components|, k, next))
  {
    LayersUpToAt(LocationsByTypes(locs), links, |components|, |components| + 1, next, k);
  }

  /**
   * Segment n + 1 + i belongs to component i: its dummies joined to layers i and i + 1 (which are
   * segments i and i + 1, by `SegmentsLayers`).
   */
  lemma SegmentsJoins(locs: seq<Location>, links: seq<Link>, components: seq<string>, next: nat, i: nat)
    requires HasMidTier(LocationsByTypes(locs), |components|) && i < |components|
    ensures var n := |components|;
      var layerSegs := LayersUpTo(LocationsByTypes(locs), links, n, n + 1, next);
      var afterLayers := LayerStart(LocationsByTypes(locs), n, n + 1, next);
      Segments(locs, links, components, next)[n + 1 + i]
        == JoinSegment(locs, components[i], layerSegs[i], layerSegs[i + 1], JoinStart(locs, i, afterLayers))
  {
    var n := |components|;
    var layerSegs := LayersUpTo(LocationsByTypes(locs), links, n, n + 1, next);
    var afterLayers := LayerStart(LocationsByTypes(locs), n, n + 1, next);
    var joins := JoinsUpTo(locs, components, layerSegs, n, afterLayers);
    assert Segments(locs, links, components, next)[n + 1 + i] == joins[i];
    JoinsUpToAt(locs, components, layerSegs, n, afterLayers, i);
  }

  /**
   * How big a successful `make_graph` is, for n components, C grouped locations, L of them
   * below the second tier, M in the second tier and N of type node: the entry and exit layers
   * have C nodes each, every inter layer 2L + M, every component N dummies. Every node but the
   * re-used second-tier locations draws one id.
   */
  lemma MakeGraphCounts(locs: seq<Location>, links: seq<Link>, components: seq<string>, next: nat)
    requires MakeGraphSpec(locs, links, components, next).result.Success?
    ensures var n := |components|;
      var layers := LocationsByTypes(locs);
      var c := |Concat(layers)|;
      var nodes := |LocationsByType(locs, Node)|;
      var b := MakeGraphSpec(locs, links, components, next);
      && |b.result.value.nodes| == (if n == 0 then c else 2 * c + (n - 1) * InterSize(layers)) + n * nodes
      && b.next == next + (if n == 0 then c else 2 * c + (n - 1) * (2 * |LowerTiers(layers)|)) + n * nodes
  {
    var n := |components|;
    var layers := LocationsByTypes(locs);
    var layerSegs := LayersUpTo(layers, links, n, n + 1, next);
    var afterLayers := LayerStart(layers, n, n + 1, next);
    var joins := JoinsUpTo(locs, components, layerSegs, n, afterLayers);
    var b := MakeGraphSpec(locs, links, components, next);
    assert HasMidTier(layers, n);
    assert b.result.value.nodes == AllNodes(layerSegs + joins) && b.next == JoinStart(locs, n, afterLayers);
    LayersCount(layers, links, n, next);
    JoinsCount(locs, components, layerSegs, n, afterLayers);
    AllNodesAppend(layerSegs, joins);
  }

  // ---------------------------------------------------------------------------
  // The reference topology: a gateway, one spine, two leaves, two nodes

  /** `x` as `LocationsByType` keeps it: alone if it has type `t`, dropped otherwise. */
  function Kept(x: Location, t: LocationType): seq<Location>
  {
    if x.ltype == t then [x] else []
  }

  lemma ByTypeCons(x: Location, rest: seq<Location>, t: LocationType)
    ensures LocationsByType([x] + rest, t) == Kept(x, t) + LocationsByType(rest, t)
  {
    assert ([x] + rest)[1..] == rest;
  }

  /** Filtering the reference topology keeps each location or drops it, in order. */
  lemma ReferenceByTypeKept(g: Location, sp: Location, l1: Location, l2: Location, n1: Location, n2: Location, t: LocationType)
    ensures LocationsByType([g, sp, l1, l2, n1, n2], t)
      == Kept(g, t) + (Kept(sp, t) + (Kept(l1, t) + (Kept(l2, t) + (Kept(n1, t) + Kept(n2, t)))))
  {
    var s4 := [n2];
    var s3 := [n1] + s4;
    var s2 := [l2] + s3;
    var s1 := [l1] + s2;
    var s0 := [sp] + s1;
    assert [g, sp, l1, l2, n1, n2] == [g] + s0;
    assert s4 == [n2] + [];
    ByTypeCons(n2, [], t);
    assert LocationsByType(s4, t) == Kept(n2, t);
    ByTypeCons(n1, s4, t);
    ByTypeCons(l2, s3, t);
    ByTypeCons(l1, s2, t);
    ByTypeCons(sp, s1, t);
    ByTypeCons(g, s0, t);
  }

  /** Filtering the reference topology, one location at a time. */
  lemma ReferenceByType(g: Location, sp: Location, l1: Location, l2: Location, n1: Location, n2: Location, t: LocationType)
    requires g.ltype == Gateway && sp.ltype == Spine && l1.ltype == Leaf && l2.ltype == Leaf && n1.ltype == Node && n2.ltype == Node
    ensures LocationsByType([g, sp, l1, l2, n1, n2], t)
      == if t == Gateway then [g] else if t == Spine then [sp]
         else if t == Leaf then [l1, l2] else if t == Node then [n1, n2] else []
  {
    if t == Leaf {
      ReferenceLeaves(g, sp, l1, l2, n1, n2);
    } else if t == Node {
      ReferenceNodes(g, sp, l1, l2, n1, n2);
    } else {
      ReferenceByTypeKept(g, sp, l1, l2, n1, n2, t);
    }
  }

  lemma ReferenceLeaves(g: Location, sp: Location, l1: Location, l2: Location, n1: Location, n2: Location)
    requires g.ltype == Gateway && sp.ltype == Spine && l1.ltype == Leaf && l2.ltype == Leaf && n1.ltype == Node && n2.ltype == Node
    ensures LocationsByType([g, sp, l1, l2, n1, n2], Leaf) == [l1, l2]
  {
    ReferenceByTypeKept(g, sp, l1, l2, n1, n2, Leaf);
    assert [l1] + ([l2] + []) == [l1, l2];
  }

  lemma ReferenceNodes(g: Location, sp: Location, l1: Location, l2: Location, n1: Location, n2: Location)
    requires g.ltype == Gateway && sp.ltype == Spine && l1.ltype == Leaf && l2.ltype == Leaf && n1.ltype == Node && n2.ltype == Node
    ensures LocationsByType([g, sp, l1, l2, n1, n2], Node) == [n1, n2]
  {
    ReferenceByTypeKept(g, sp, l1, l2, n1, n2, Node);
    assert [n1] + [n2] == [n1, n2];
  }

  /** One step of `GroupsOf`: the group of the first type, if non-empty, then the rest. */
  lemma GroupsOfStep(locs: seq<Location>, ts: seq<LocationType>)
    requires ts != []
    ensures GroupsOf(locs, ts)
      == (if LocationsByType(locs, ts[0]) != [] then [LocationsByType(locs, ts[0])] else []) + GroupsOf(locs, ts[1..])
  {
  }

  lemma ReferenceNodeGroup(g: Location, sp: Location, l1: Location, l2: Location, n1: Location, n2: Location)
    requires g.ltype == Gateway && sp.ltype == Spine && l1.ltype == Leaf && l2.ltype == Leaf && n1.ltype == Node && n2.ltype == Node
    ensures GroupsOf([g, sp, l1, l2, n1, n2], [Node]) == [[n1, n2]]
  {
    ReferenceByType(g, sp, l1, l2, n1, n2, Node);
    GroupsOfStep([g, sp, l1, l2, n1, n2], [Node]);
    assert [Node][1..] == [];
  }

  lemma ReferenceLowerGroups(g: Location, sp: Location, l1: Location, l2: Location, n1: Location, n2: Location)
    requires g.ltype == Gateway && sp.ltype == Spine && l1.ltype == Leaf && l2.ltype == Leaf && n1.ltype == Node && n2.ltype == Node
    ensures GroupsOf([g, sp, l1, l2, n1, n2], [Leaf, Node]) == [[l1, l2], [n1, n2]]
  {
    ReferenceNodeGroup(g, sp, l1, l2, n1, n2);
    ReferenceByType(g, sp, l1, l2, n1, n2, Leaf);
    GroupsOfStep([g, sp, l1, l2, n1, n2], [Leaf, Node]);
    assert [Leaf, Node][1..] == [Node];
    ConsFour([l1, l2], [n1, n2], [], []);
  }

  lemma ReferenceUpperGroups(g: Location, sp: Location, l1: Location, l2: Location, n1: Location, n2: Location)
    requires g.ltype == Gateway && sp.ltype == Spine && l1.ltype == Leaf && l2.ltype == Leaf && n1.ltype == Node && n2.ltype == Node
    ensures GroupsOf([g, sp, l1, l2, n1, n2], [SuperSpine, Spine, Leaf, Node]) == [[sp], [l1, l2], [n1, n2]]
  {
    var locs := [g, sp, l1, l2, n1, n2];
    assert GroupsOf(locs, [Spine, Leaf, Node]) == [[sp], [l1, l2], [n1, n2]] by {
      ReferenceLowerGroups(g, sp, l1, l2, n1, n2);
      ReferenceByType(g, sp, l1, l2, n1, n2, Spine);
      GroupsOfStep(locs, [Spine, Leaf, Node]);
      assert [Spine, Leaf, Node][1..] == [Leaf, Node];
      ConsFour([sp], [l1, l2], [n1, n2], []);
      assert [[sp]] + [[l1, l2], [n1, n2]] == [[sp], [l1, l2], [n1, n2]];
    }
    ReferenceByType(g, sp, l1, l2, n1, n2, SuperSpine);
    GroupsOfStep(locs, [SuperSpine, Spine, Leaf, Node]);
    assert [SuperSpine, Spine, Leaf, Node][1..] == [Spine, Leaf, Node];
  }

  /** Its tiers: the gateway, the spine, the two leaves, the two nodes. */
  lemma ReferenceTiers(g: Location, sp: Location, l1: Location, l2: Location, n1: Location, n2: Location)
    requires g.ltype == Gateway && sp.ltype == Spine && l1.ltype == Leaf && l2.ltype == Leaf && n1.ltype == Node && n2.ltype == Node
    ensures LocationsByTypes([g, sp, l1, l2, n1, n2]) == [[g], [sp], [l1, l2], [n1, n2]]
  {
    var locs := [g, sp, l1, l2, n1, n2];
    ReferenceUpperGroups(g, sp, l1, l2, n1, n2);
    ReferenceByType(g, sp, l1, l2, n1, n2, Gateway);
    assert Tiers[1..] == [SuperSpine, Spine, Leaf, Node] && Tiers[0] == Gateway;
    GroupsOfStep(locs, Tiers);
    ConsFour([g], [sp], [l1, l2], [n1, n2]);
  }

  lemma ConsFour<T>(a: T, b: T, c: T, d: T)
    ensures [a] + [b, c, d] == [a, b, c, d]
    ensures [a] + [b, c] == [a, b, c]
    ensures [a] + [b] == [a, b]
  {
  }

  /** Concatenating four groups, and the last two of them. */
  lemma ConcatFour<T>(a: seq<T>, b: seq<T>, c: seq<T>, d: seq<T>)
    ensures Concat([a, b, c, d]) == a + b + c + d
    ensures Concat([a, b, c, d][2..]) == c + d
  {
    assert Concat([a]) == a by { assert [a][..0] == []; }
    assert Concat([a, b]) == a + b by { assert [a, b][..1] == [a]; }
    assert Concat([a, b, c]) == a + b + c by { assert [a, b, c][..2] == [a, b]; }
    assert [a, b, c, d][..3] == [a, b, c];
    assert Concat([c]) == c by { assert [c][..0] == []; }
    assert Concat([c, d]) == c + d by { assert [c, d][..1] == [c]; }
    assert [a, b, c, d][2..] == [c, d];
  }

  /**
   * For the reference topology (gateway, spine, two leaves, two nodes) and a service of two
   * components, `make_graph` succeeds with 6 + 9 + 6 nodes in the layers (the inter layer:
   * 4 out copies, the spine, 4 in copies) and 2 + 2 dummies, 25 in all, drawing 24 ids
   * (the spine is re-used, not copied).
   */
  lemma ReferenceGraphSize(g: Location, sp: Location, l1: Location, l2: Location, n1: Location, n2: Location,
                           links: seq<Link>, components: seq<string>, next: nat)
    requires g.ltype == Gateway && sp.ltype == Spine && l1.ltype == Leaf && l2.ltype == Leaf && n1.ltype == Node && n2.ltype == Node
    requires |components| == 2
    ensures var b := MakeGraphSpec([g, sp, l1, l2, n1, n2], links, components, next);
      && b.result.Success? && |b.result.value.nodes| == 25 && b.next == next + 24
  {
    var locs := [g, sp, l1, l2, n1, n2];
    ReferenceTiers(g, sp, l1, l2, n1, n2);
    ReferenceByType(g, sp, l1, l2, n1, n2, Node);
    var layers := LocationsByTypes(locs);
    ConcatFour([g], [sp], [l1, l2], [n1, n2]);
    MakeGraphCounts(locs, links, components, next);
  }
}
