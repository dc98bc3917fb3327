/**
 * The physical topology (class `topology` of topology_class.py): its read-only queries over
 * the location and link lists, the object whose lists grow in place, and `key_exists`.
 */
module Topology {
  import opened Wrappers
  import opened Seqs
  import opened Locations
  import opened Links

  datatype TopologyError = MultipleOpposingLinks | LinkCopyFailed(linkError: LinkError) | InvalidLocation(locationError: LocationError)

  // ---------------------------------------------------------------------------
  // Queries by type

  /** `getLocationsByType`: the locations of type `t`, in list order. */
  function LocationsByType(locs: seq<Location>, t: LocationType): (r: seq<Location>)
    ensures forall x :: x in r <==> x in locs && x.ltype == t
    ensures |r| <= |locs|
    decreases |locs|
  {
    if locs == [] then []
    else (if locs[0].ltype == t then [locs[0]] else []) + LocationsByType(locs[1..], t)
  }

  /** Filtering a concatenation filters each part, so the list order is kept. */
  lemma {:induction false} LocationsByTypeAppend(a: seq<Location>, b: seq<Location>, t: LocationType)
    ensures LocationsByType(a + b, t) == LocationsByType(a, t) + LocationsByType(b, t)
    decreases |a|
  {
    if a == [] {
      assert a + b == b;
    } else {
      assert (a + b)[1..] == a[1..] + b;
      LocationsByTypeAppend(a[1..], b, t);
    }
  }

  /** The tiers `getLocationsByTypes` groups by, top down. */
  const Tiers: seq<LocationType> := [Gateway, SuperSpine, Spine, Leaf, Node]

  /** Position of a type in the tier order; `dummy` is not a tier. */
  function Rank(t: LocationType): nat
  {
    match t
    case Gateway => 0
    case SuperSpine => 1
    case Spine => 2
    case Leaf => 3
    case Node => 4
    case Dummy => 5
  }

  /** The non-empty groups among the locations of each type of `ts`, in the order of `ts`. */
  function GroupsOf(locs: seq<Location>, ts: seq<LocationType>): seq<seq<Location>>
    decreases |ts|
  {
    if ts == [] then []
    else
      var g := LocationsByType(locs, ts[0]);
      (if g != [] then [g] else []) + GroupsOf(locs, ts[1..])
  }

  /** `getLocationsByTypes`: the gateway, super spine, spine, leaf and node groups, empty ones dropped. */
  function LocationsByTypes(locs: seq<Location>): seq<seq<Location>>
  {
    GroupsOf(locs, Tiers)
  }

  /** The types of the groups `GroupsOf` keeps. */
  function GroupTypes(locs: seq<Location>, ts: seq<LocationType>): (r: seq<LocationType>)
    ensures forall t :: t in r ==> t in ts
    decreases |ts|
  {
    if ts == [] then []
    else (if LocationsByType(locs, ts[0]) != [] then [ts[0]] else []) + GroupTypes(locs, ts[1..])
  }

  /** Group i is the non-empty list of all locations of type types[i]; types appear in rank order. */
  ghost predicate Grouping(locs: seq<Location>, groups: seq<seq<Location>>, types: seq<LocationType>)
  {
    && |groups| == |types|
    && (forall i :: 0 <= i < |groups| ==> groups[i] != [] && groups[i] == LocationsByType(locs, types[i]))
    && (forall i :: 0 <= i < |types| ==> types[i] != Dummy)
    && (forall i, j :: 0 <= i < j < |types| ==> Rank(types[i]) < Rank(types[j]))
  }

  ghost predicate RankedTiers(ts: seq<LocationType>)
  {
    && (forall i :: 0 <= i < |ts| ==> ts[i] != Dummy)
    && (forall i, j :: 0 <= i < j < |ts| ==> Rank(ts[i]) < Rank(ts[j]))
  }

  lemma {:induction false} GroupsOfShape(locs: seq<Location>, ts: seq<LocationType>)
    requires RankedTiers(ts)
    ensures Grouping(locs, GroupsOf(locs, ts), GroupTypes(locs, ts))
    decreases |ts|
  {
    if ts != [] {
      var tail := ts[1..];
      assert RankedTiers(tail) by {
        forall i, j | 0 <= i < j < |tail| ensures Rank(tail[i]) < Rank(tail[j]) {
          assert tail[i] == ts[i + 1] && tail[j] == ts[j + 1];
        }
      }
      GroupsOfShape(locs, tail);
      var types := GroupTypes(locs, tail);
      var g := LocationsByType(locs, ts[0]);
      if g != [] {
        forall j | 0 <= j < |types| ensures Rank(ts[0]) < Rank(types[j]) {
          assert types[j] in tail;
        }
        GroupingCons(locs, g, ts[0], GroupsOf(locs, tail), types);
      } else {
        assert GroupsOf(locs, ts) == GroupsOf(locs, tail);
        assert GroupTypes(locs, ts) == types;
      }
    }
  }

  /** A non-empty group of a type ranked above all others can go in front of a grouping. */
  lemma GroupingCons(locs: seq<Location>, g: seq<Location>, t: LocationType, groups: seq<seq<Location>>, types: seq<LocationType>)
    requires Grouping(locs, groups, types)
    requires g != [] && g == LocationsByType(locs, t) && t != Dummy
    requires forall j :: 0 <= j < |types| ==> Rank(t) < Rank(types[j])
    ensures Grouping(locs, [g] + groups, [t] + types)
  {
    var gs, tys := [g] + groups, [t] + types;
    forall i | 0 < i < |gs| ensures gs[i] == groups[i - 1] && tys[i] == types[i - 1] { }
  }

  lemma {:induction false} GroupsOfMembers(locs: seq<Location>, ts: seq<LocationType>, x: Location)
    ensures x in Concat(GroupsOf(locs, ts)) <==> x in locs && x.ltype in ts
    decreases |ts|
  {
    if ts != [] {
      var g := LocationsByType(locs, ts[0]);
      var head := if g != [] then [g] else [];
      GroupsOfMembers(locs, ts[1..], x);
      ConcatAppend(head, GroupsOf(locs, ts[1..]));
      assert Concat(head) == (if g != [] then g else []) by {
        if g != [] { assert head[..0] == []; }
      }
      assert x.ltype in ts <==> x.ltype == ts[0] || x.ltype in ts[1..];
    }
  }

  lemma TiersRanked()
    ensures RankedTiers(Tiers)
  {
    forall i, j | 0 <= i < j < |Tiers| ensures Rank(Tiers[i]) < Rank(Tiers[j]) {
      assert Rank(Tiers[i]) == i && Rank(Tiers[j]) == j;
    }
  }

  /**
   * `getLocationsByTypes` returns each non-empty tier in the order gateway, super spine, spine,
   * leaf, node, and its groups hold exactly the locations that are not dummies.
   */
  lemma LocationsByTypesGroups(locs: seq<Location>)
    ensures Grouping(locs, LocationsByTypes(locs), GroupTypes(locs, Tiers))
    ensures forall x :: x in Concat(LocationsByTypes(locs)) <==> x in locs && x.ltype != Dummy
  {
    TiersRanked();
    GroupsOfShape(locs, Tiers);
    forall x ensures x in Concat(LocationsByTypes(locs)) <==> x in locs && x.ltype != Dummy {
      GroupsOfMembers(locs, Tiers, x);
      assert x.ltype in Tiers <==> x.ltype != Dummy;
    }
  }

  /** No non-empty tier is dropped. */
  lemma LocationsByTypesComplete(locs: seq<Location>, t: LocationType)
    requires t != Dummy && LocationsByType(locs, t) != []
    ensures t in GroupTypes(locs, Tiers)
  {
    var x := LocationsByType(locs, t)[0];
    assert x in LocationsByType(locs, t);
    LocationsByTypesGroups(locs);
    var groups := LocationsByTypes(locs);
    var types := GroupTypes(locs, Tiers);
    ConcatMember(groups, x);
    var i :| 0 <= i < |groups| && x in groups[i];
    assert groups[i] == LocationsByType(locs, types[i]);
    assert types[i] == t;
  }

  // ---------------------------------------------------------------------------
  // Incoming, outgoing and opposing links

  /** `outgoingEdge`: the links whose source is `loc`. */
  function Outgoing(links: seq<Link>, loc: Location): (r: seq<Link>)
    ensures forall l :: l in r <==> l in links && l.source.id == loc.id
    ensures |r| <= |links|
    decreases |links|
  {
    if links == [] then []
    else (if links[0].source.id == loc.id then [links[0]] else []) + Outgoing(links[1..], loc)
  }

  /** `incomingEdge`: the links whose sink is `loc`. */
  function Incoming(links: seq<Link>, loc: Location): (r: seq<Link>)
    ensures forall l :: l in r <==> l in links && l.sink.id == loc.id
    ensures |r| <= |links|
    decreases |links|
  {
    if links == [] then []
    else (if links[0].sink.id == loc.id then [links[0]] else []) + Incoming(links[1..], loc)
  }

  /**
   * Ids identify locations: two locations with the same id are the same location. The source
   * compares locations by object identity; where this holds, comparing ids decides the same.
   */
  ghost predicate IdsIdentify(locs: seq<Location>)
  {
    forall x, y :: x in locs && y in locs && x.id == y.id ==> x == y
  }

  /** Among links whose sources are locations where ids identify, `l.source == loc` is `l.source.id == loc.id`. */
  lemma OutgoingByIdentity(nodes: seq<Location>, links: seq<Link>, loc: Location)
    requires IdsIdentify(nodes) && loc in nodes
    requires forall l :: l in links ==> l.source in nodes
    ensures Outgoing(links, loc) == [] <==> forall l :: l in links ==> l.source != loc
  {
    if Outgoing(links, loc) != [] {
      assert Outgoing(links, loc)[0] in Outgoing(links, loc);
    }
  }

  /** Among links whose sinks are locations where ids identify, `l.sink == loc` is `l.sink.id == loc.id`. */
  lemma IncomingByIdentity(nodes: seq<Location>, links: seq<Link>, loc: Location)
    requires IdsIdentify(nodes) && loc in nodes
    requires forall l :: l in links ==> l.sink in nodes
    ensures Incoming(links, loc) == [] <==> forall l :: l in links ==> l.sink != loc
  {
    if Incoming(links, loc) != [] {
      assert Incoming(links, loc)[0] in Incoming(links, loc);
    }
  }

  /** `o` runs between the same two locations as `l`, the other way. */
  predicate Opposes(o: Link, l: Link)
  {
    o.source.id == l.sink.id && o.sink.id == l.source.id
  }

  function Opposite(links: seq<Link>, l: Link): (r: seq<Link>)
    ensures forall o :: o in r <==> o in links && Opposes(o, l)
    decreases |links|
  {
    if links == [] then []
    else (if Opposes(links[0], l) then [links[0]] else []) + Opposite(links[1..], l)
  }

  /**
   * `getOpposingEdge`: the one link running opposite to `l`; None when there is none,
   * an error when two or more entries of the list do.
   */
  function OpposingEdge(links: seq<Link>, l: Link): (r: Result<Option<Link>, TopologyError>)
    ensures r.Failure? <==> |Opposite(links, l)| >= 2
    ensures r.Failure? ==> r.error == MultipleOpposingLinks
    ensures r == Success(None) <==> forall o :: o in links ==> !Opposes(o, l)
    ensures r.Success? && r.value.Some? ==>
      && r.value.value in links && Opposes(r.value.value, l)
      && forall o :: o in links && Opposes(o, l) ==> o == r.value.value
  {
    var opposing := Opposite(links, l);
    assert opposing != [] ==> opposing[0] in opposing;
    if opposing == [] then Success(None)
    else if |opposing| == 1 then
      assert opposing[0] in opposing && opposing == [opposing[0]];
      Success(Some(opposing[0]))
    else Failure(MultipleOpposingLinks)
  }

  /** Opposition is symmetric: the link opposing `l` has `l` as its opposing link, unless that lookup raises. */
  lemma OpposingEdgeInvolution(links: seq<Link>, l: Link)
    requires l in links && OpposingEdge(links, l).Success? && OpposingEdge(links, l).value.Some?
    ensures var o := OpposingEdge(links, l).value.value;
      OpposingEdge(links, o) == Success(Some(l)) || OpposingEdge(links, o) == Failure(MultipleOpposingLinks)
  {
    var o := OpposingEdge(links, l).value.value;
    assert l in Opposite(links, o);
    var opp := Opposite(links, o);
    if |opp| == 1 {
      assert opp == [opp[0]];
    }
  }

  // ---------------------------------------------------------------------------
  // Scans that keep a running result

  /** `getLocationByDescription`: the LAST location with that description, or None. */
  method GetLocationByDescription(locs: seq<Location>, description: string) returns (r: Option<Location>)
    ensures r.None? <==> forall i :: 0 <= i < |locs| ==> locs[i].description != description
    ensures r.Some? ==> exists i :: (0 <= i < |locs| && locs[i] == r.value && r.value.description == description
                                     && forall j :: i < j < |locs| ==> locs[j].description != description)
  {
    r := None;
    ghost var at := 0;
    for k := 0 to |locs|
      invariant r.None? <==> forall i :: 0 <= i < k ==> locs[i].description != description
      invariant r.Some? ==> (0 <= at < k && locs[at] == r.value && r.value.description == description
                             && forall j :: at < j < k ==> locs[j].description != description)
    {
      if locs[k].description == description {
        r := Some(locs[k]);
        at := k;
      }
    }
  }

  /** `l` joins the locations with ids `a` and `b`, in either direction. */
  predicate Joins(l: Link, a: nat, b: nat)
  {
    (l.source.id == a && l.sink.id == b) || (l.sink.id == a && l.source.id == b)
  }

  /** `getEdgeByLocations`: the LAST link joining `a` and `b` in either direction, or None. */
  method GetEdgeByLocations(links: seq<Link>, a: nat, b: nat) returns (r: Option<Link>)
    ensures r.None? <==> forall i :: 0 <= i < |links| ==> !Joins(links[i], a, b)
    ensures r.Some? ==> exists i :: (0 <= i < |links| && links[i] == r.value && Joins(r.value, a, b)
                                     && forall j :: i < j < |links| ==> !Joins(links[j], a, b))
  {
    r := None;
    ghost var at := 0;
    for k := 0 to |links|
      invariant r.None? <==> forall i :: 0 <= i < k ==> !Joins(links[i], a, b)
      invariant r.Some? ==> (0 <= at < k && links[at] == r.value && Joins(r.value, a, b)
                             && forall j :: at < j < k ==> !Joins(links[j], a, b))
    {
      if links[k].source.id == a && links[k].sink.id == b {
        r := Some(links[k]);
        at := k;
      } else if links[k].sink.id == a && links[k].source.id == b {
        r := Some(links[k]);
        at := k;
      }
    }
  }

  /** `getLocationByID`: the FIRST location with that id; the source's `False` is None. */
  method GetLocationByID(locs: seq<Location>, id: nat) returns (r: Option<Location>)
    ensures r.None? <==> forall i :: 0 <= i < |locs| ==> locs[i].id != id
    ensures r.Some? ==> exists i :: (0 <= i < |locs| && locs[i] == r.value && r.value.id == id
                                     && forall j :: 0 <= j < i ==> locs[j].id != id)
  {
    for k := 0 to |locs|
      invariant forall i :: 0 <= i < k ==> locs[i].id != id
    {
      if id == locs[k].id {
        return Some(locs[k]);
      }
    }
    return None;
  }

  // ---------------------------------------------------------------------------
  // The topology object

  class Topology {
    var name: string
    var locations: seq<Location>
    var links: seq<Link>

    /** Every location, and every link endpoint, was built by the location constructor. */
    ghost predicate Valid()
      reads this
    {
      && (forall x :: x in locations ==> x.WellFormed())
      && (forall l :: l in links ==> l.source.WellFormed() && l.sink.WellFormed())
    }

    constructor (name: string, locations: seq<Location>, links: seq<Link>)
      requires forall x :: x in locations ==> x.WellFormed()
      requires forall l :: l in links ==> l.source.WellFormed() && l.sink.WellFormed()
      ensures Valid()
      ensures this.name == name && this.locations == locations && this.links == links
    {
      this.name := name;
      this.locations := locations;
      this.links := links;
    }

    method SetName(name: string)
      modifies this
      ensures this.name == name && locations == old(locations) && links == old(links)
    {
      this.name := name;
    }

    /** `addLink`: appends one new one-way link; nothing already there changes. */
    method AddLink(source: Location, sink: Location, parameters: map<string, Num>)
      requires Valid() && source.WellFormed() && sink.WellFormed()
      modifies this
      ensures Valid()
      ensures links == old(links) + [Link(source, sink, parameters, false)]
      ensures locations == old(locations) && name == old(name)
    {
      links := links + [Link(source, sink, parameters, false)];
    }

    /** `addLocation`: appends one location; nothing already there changes. */
    method AddLocation(location: Location)
      requires Valid() && location.WellFormed()
      modifies this
      ensures Valid()
      ensures locations == old(locations) + [location]
      ensures links == old(links) && name == old(name)
    {
      locations := locations + [location];
    }

    /**
     * `makeCopy` copies every link with `link.copy`, which always raises: it succeeds only for a
     * topology without links, and otherwise fails on the first link after two ids were drawn.
     */
    method MakeCopy(ids: IdCounter, name: string) returns (r: Result<Topology, TopologyError>)
      requires Valid() && ids.Valid()
      modifies ids
      ensures ids.Valid()
      ensures r.Success? <==> links == []
      ensures r.Success? ==> (fresh(r.value) && r.value.Valid() && r.value.name == name
                              && r.value.locations == locations && r.value.links == [])
      ensures ids.next == old(ids.next) + (if links == [] then 0 else 2)
    {
      if links == [] {
        var t := new Topology(name, locations, []);
        r := Success(t);
      } else {
        var c := CopyLink(ids, links[0]);
        r := Failure(LinkCopyFailed(c.error));
      }
    }

    /**
     * `addArtificialSource`: the location it builds has type "artificial_source", which the
     * constructor rejects, so it raises after drawing one id and adds nothing.
     */
    method AddArtificialSource(ids: IdCounter, connections: seq<Location>) returns (r: Result<(), TopologyError>)
      requires ids.Valid()
      modifies ids
      ensures ids.Valid() && ids.next == old(ids.next) + 1
      ensures r == Failure(InvalidLocation(InvalidType("artificial_source")))
    {
      var source := NewLocation(ids, "Artificial Source", "artificial_source", None, None);
      r := Failure(InvalidLocation(source.error));
    }

    /** `addArtificialSink`: fails like `AddArtificialSource`, with type "artificial_sink". */
    method AddArtificialSink(ids: IdCounter, connections: seq<Location>) returns (r: Result<(), TopologyError>)
      requires ids.Valid()
      modifies ids
      ensures ids.Valid() && ids.next == old(ids.next) + 1
      ensures r == Failure(InvalidLocation(InvalidType("artificial_sink")))
    {
      var sink := NewLocation(ids, "Artificial Sink", "artificial_sink", None, None);
      r := Failure(InvalidLocation(sink.error));
    }
  }

  // ---------------------------------------------------------------------------
  // key_exists

  /** A nested dictionary value: a dictionary, or a leaf that cannot be indexed. */
  datatype Value = Dict(entries: map<string, Value>) | Scalar(n: Num)

  datatype KeyExistsError = NotADict | NoKeys | NotSubscriptable

  /** The value reached by indexing with each key in turn, if every step finds its key. */
  function Lookup(v: Value, keys: seq<string>): Option<Value>
    decreases |keys|
  {
    if keys == [] then Some(v)
    else match v
      case Scalar(_) => None
      case Dict(m) => if keys[0] in m then Lookup(m[keys[0]], keys[1..]) else None
  }

  /**
   * What the lookup loop of `key_exists` yields: False at the first missing key, an (uncaught)
   * error when it indexes a value that is not a dictionary, True when every key is found.
   */
  function Walk(v: Value, keys: seq<string>): Result<bool, KeyExistsError>
    decreases |keys|
  {
    if keys == [] then Success(true)
    else match v
      case Scalar(_) => Failure(NotSubscriptable)
      case Dict(m) => if keys[0] in m then Walk(m[keys[0]], keys[1..]) else Success(false)
  }

  /** The walk says True exactly when the nested lookup succeeds, and False only when it fails. */
  lemma {:induction false} WalkMatchesLookup(v: Value, keys: seq<string>)
    ensures Walk(v, keys) == Success(true) <==> Lookup(v, keys).Some?
    ensures Walk(v, keys) == Success(false) ==> Lookup(v, keys).None?
    decreases |keys|
  {
    if keys != [] && v.Dict? && keys[0] in v.entries {
      WalkMatchesLookup(v.entries[keys[0]], keys[1..]);
    }
  }

  /** `key_exists`. */
  method KeyExists(dictionary: Value, keys: seq<string>) returns (r: Result<bool, KeyExistsError>)
    ensures !dictionary.Dict? ==> r == Failure(NotADict)
    ensures dictionary.Dict? && keys == [] ==> r == Failure(NoKeys)
    ensures dictionary.Dict? && keys != [] ==> r == Walk(dictionary, keys)
    ensures r == Success(true) <==> dictionary.Dict? && keys != [] && Lookup(dictionary, keys).Some?
  {
    if !dictionary.Dict? {
      return Failure(NotADict);
    }
    if |keys| == 0 {
      return Failure(NoKeys);
    }
    WalkMatchesLookup(dictionary, keys);
    var current := dictionary;
    for i := 0 to |keys|
      invariant Walk(dictionary, keys) == Walk(current, keys[i..])
    {
      match current
      case Scalar(_) =>
        return Failure(NotSubscriptable);
      case Dict(m) =>
        if keys[i] !in m {
          return Success(false);
        }
        current := m[keys[i]];
    }
    return Success(true);
  }
}
