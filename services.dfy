/**
 * Service bookkeeping (service_class.py): components with counter-drawn ids, services owning
 * their service graphs and path catalogue, the start and end node scans of a service graph,
 * and the naming of service paths.
 */
module Services {
  import opened Wrappers
  import opened Locations
  import opened Links
  import opened Topology
  import opened ServiceGraphBuilder
  import opened ServiceGraphShape

  // ---------------------------------------------------------------------------
  // Components

  /** A component of a service: an id from the component counter, its resource requirements. */
  datatype Component = Component(id: nat, description: string, requirements: map<string, Num>, replicaCount: int)
  {
    /** `required_cpu`: the "cpu" requirement, or the missing key. */
    function RequiredCpu(): (r: Result<Num, string>)
      ensures r.Success? <==> "cpu" in requirements
      ensures r.Success? ==> r.value == requirements["cpu"]
      ensures r.Failure? ==> r.error == "cpu"
    {
      if "cpu" in requirements then Success(requirements["cpu"]) else Failure("cpu")
    }

    /** `required_ram`: the "ram" requirement, or the missing key. */
    function RequiredRam(): (r: Result<Num, string>)
      ensures r.Success? <==> "ram" in requirements
      ensures r.Success? ==> r.value == requirements["ram"]
      ensures r.Failure? ==> r.error == "ram"
    {
      if "ram" in requirements then Success(requirements["ram"]) else Failure("ram")
    }
  }

  /** `component(...)`: draws the next id of the component counter (not the location counter). */
  method NewComponent(componentIds: IdCounter, description: string, requirements: map<string, Num>, replicaCount: int)
    returns (c: Component)
    requires componentIds.Valid()
    modifies componentIds
    ensures componentIds.Valid() && componentIds.next == old(componentIds.next) + 1
    ensures c == Component(old(componentIds.next), description, requirements, replicaCount)
    ensures c.id !in old(componentIds.issued) && forall j :: j in old(componentIds.issued) ==> j < c.id
  {
    var id := componentIds.Draw();
    c := Component(id, description, requirements, replicaCount);
  }

  /** The component descriptions, in order: what `make_graph` reads from a service. */
  function Descriptions(components: seq<Component>): (r: seq<string>)
    ensures |r| == |components| && forall i :: 0 <= i < |components| ==> r[i] == components[i].description
  {
    seq(|components|, i requires 0 <= i < |components| => components[i].description)
  }

  // ---------------------------------------------------------------------------
  // Start and end nodes of a service graph

  /** `getStartNode`: the first location in list order that is the sink of no link, if any. */
  function StartNode(locs: seq<Location>, links: seq<Link>): (r: Option<Location>)
    ensures r.None? <==> forall i :: 0 <= i < |locs| ==> Incoming(links, locs[i]) != []
    ensures r.Some? ==> exists i :: (&& 0 <= i < |locs| && locs[i] == r.value && Incoming(links, r.value) == []
                                     && forall j :: 0 <= j < i ==> Incoming(links, locs[j]) != [])
    decreases |locs|
  {
    if locs == [] then None
    else if Incoming(links, locs[0]) == [] then Some(locs[0])
    else
      var r := StartNode(locs[1..], links);
      assert r.Some? ==> exists i :: (&& 0 <= i < |locs| && locs[i] == r.value && Incoming(links, r.value) == []
                                       && forall j :: 0 <= j < i ==> Incoming(links, locs[j]) != []) by {
        if r.Some? {
          var i :| && 0 <= i < |locs[1..]| && locs[1..][i] == r.value && Incoming(links, r.value) == []
                   && forall j :: 0 <= j < i ==> Incoming(links, locs[1..][j]) != [];
          assert locs[i + 1] == r.value;
          assert forall j :: 0 <= j < i + 1 ==> Incoming(links, locs[j]) != [] by {
            forall j | 0 <= j < i + 1 ensures Incoming(links, locs[j]) != [] {
              if j > 0 { assert locs[j] == locs[1..][j - 1]; }
            }
          }
        }
      }
      r
  }

  /** `getEndNode`: the first location in list order that is the source of no link, if any. */
  function EndNode(locs: seq<Location>, links: seq<Link>): (r: Option<Location>)
    ensures r.None? <==> forall i :: 0 <= i < |locs| ==> Outgoing(links, locs[i]) != []
    ensures r.Some? ==> exists i :: (&& 0 <= i < |locs| && locs[i] == r.value && Outgoing(links, r.value) == []
                                     && forall j :: 0 <= j < i ==> Outgoing(links, locs[j]) != [])
    decreases |locs|
  {
    if locs == [] then None
    else if Outgoing(links, locs[0]) == [] then Some(locs[0])
    else
      var r := EndNode(locs[1..], links);
      assert r.Some? ==> exists i :: (&& 0 <= i < |locs| && locs[i] == r.value && Outgoing(links, r.value) == []
                                       && forall j :: 0 <= j < i ==> Outgoing(links, locs[j]) != []) by {
        if r.Some? {
          var i :| && 0 <= i < |locs[1..]| && locs[1..][i] == r.value && Outgoing(links, r.value) == []
                   && forall j :: 0 <= j < i ==> Outgoing(links, locs[1..][j]) != [];
          assert locs[i + 1] == r.value;
          assert forall j :: 0 <= j < i + 1 ==> Outgoing(links, locs[j]) != [] by {
            forall j | 0 <= j < i + 1 ensures Outgoing(links, locs[j]) != [] {
              if j > 0 { assert locs[j] == locs[1..][j - 1]; }
            }
          }
        }
      }
      r
  }

  // ---------------------------------------------------------------------------
  // Service paths and their names

  /** The character of a decimal digit. */
  function DigitChar(d: nat): (c: char)
    requires d < 10
    ensures '0' <= c <= '9' && c as int - '0' as int == d
  {
    ('0' as int + d) as char
  }

  /** `str(n)` for a natural number: its decimal digits, without leading zeros. */
  function NatToString(n: nat): (r: string)
    ensures |r| >= 1 && (forall i :: 0 <= i < |r| ==> '0' <= r[i] <= '9')
    ensures r[0] == '0' ==> n == 0
    decreases n
  {
    if n < 10 then [DigitChar(n)] else NatToString(n / 10) + [DigitChar(n % 10)]
  }

  /** The number a string of decimal digits denotes. */
  function DigitsValue(s: string): nat
    requires forall i :: 0 <= i < |s| ==> '0' <= s[i] <= '9'
    decreases |s|
  {
    if s == [] then 0
    else DigitsValue(s[..|s| - 1]) * 10 + (s[|s| - 1] as int - '0' as int)
  }

  /** Reading back the digits of `str(n)` gives n. */
  lemma {:induction false} NatToStringRoundTrip(n: nat)
    ensures DigitsValue(NatToString(n)) == n
    decreases n
  {
    if n >= 10 {
      NatToStringRoundTrip(n / 10);
      var s := NatToString(n);
      assert s[..|s| - 1] == NatToString(n / 10);
    }
  }

  /** Different counter values give different names for paths of the same base name. */
  lemma PathNamesDistinct(name: string, a: nat, b: nat)
    requires a != b
    ensures name + NatToString(a) != name + NatToString(b)
  {
    if name + NatToString(a) == name + NatToString(b) {
      assert (name + NatToString(a))[|name|..] == NatToString(a);
      assert (name + NatToString(b))[|name|..] == NatToString(b);
      NatToStringRoundTrip(a);
      NatToStringRoundTrip(b);
    }
  }

  /**
   * A service path: a named route through a service graph, with its traversal counts per
   * physical link and its component assignment, both stored as given.
   */
  datatype ServicePath = ServicePath(
    name: string, locations: seq<Location>, links: seq<Link>,
    timesTraversed: seq<nat>, componentAssignment: map<string, seq<nat>>)

  /**
   * `service_path(...)`: the name is the given name followed by a number drawn from the
   * location counter (the class's own counter is never used).
   */
  method NewServicePath(ids: IdCounter, name: string, locations: seq<Location>, links: seq<Link>,
                        timesTraversed: seq<nat>, componentAssignment: map<string, seq<nat>>)
    returns (p: ServicePath)
    requires ids.Valid()
    modifies ids
    ensures ids.Valid() && ids.next == old(ids.next) + 1 && ids.issued == old(ids.issued) + {old(ids.next)}
    ensures p == ServicePath(name + NatToString(old(ids.next)), locations, links, timesTraversed, componentAssignment)
  {
    var number := ids.Draw();
    p := ServicePath(name + NatToString(number), locations, links, timesTraversed, componentAssignment);
  }

  // ---------------------------------------------------------------------------
  // Service graphs and services

  /** What a successful `make_graph` builds from well-formed locations can make a valid topology. */
  lemma BuiltGraphWellFormed(locs: seq<Location>, links: seq<Link>, components: seq<string>, next: nat)
    requires MakeGraphSpec(locs, links, components, next).result.Success?
    requires forall x :: x in locs ==> x.WellFormed()
    ensures var g := MakeGraphSpec(locs, links, components, next).result.value;
      && (forall x :: x in g.nodes ==> x.WellFormed())
      && (forall l :: l in g.edges ==> l.source.WellFormed() && l.sink.WellFormed())
  {
    MakeGraphValid(locs, links, components, next);
  }

  /** A service graph: the layered topology `make_graph` built, and the paths found in it. */
  class ServiceGraph {
    const graph: Topology
    var paths: seq<ServicePath>

    constructor (name: string, locations: seq<Location>, links: seq<Link>)
      requires forall x :: x in locations ==> x.WellFormed()
      requires forall l :: l in links ==> l.source.WellFormed() && l.sink.WellFormed()
      ensures fresh(graph) && graph.Valid()
      ensures graph.name == name && graph.locations == locations && graph.links == links
      ensures paths == []
    {
      graph := new Topology(name, locations, links);
      paths := [];
    }

    /** `addPath`: appends one path; the catalogue only grows. */
    method AddPath(path: ServicePath)
      modifies this
      ensures paths == old(paths) + [path]
    {
      paths := paths + [path];
    }

    /** `getStartNode` on this graph's current locations and links: the first location without an incoming link. */
    function GetStartNode(): (r: Option<Location>)
      reads this, graph
      ensures r.None? <==> forall x :: x in graph.locations ==> Incoming(graph.links, x) != []
      ensures r.Some? ==> r.value in graph.locations && Incoming(graph.links, r.value) == []
      ensures r.Some? ==> exists i :: (&& 0 <= i < |graph.locations| && graph.locations[i] == r.value
                                       && forall j :: 0 <= j < i ==> Incoming(graph.links, graph.locations[j]) != [])
    {
      var locs := graph.locations;
      var r := StartNode(locs, graph.links);
      assert r.Some? ==> r.value in locs && Incoming(graph.links, r.value) == [] by {
        if r.Some? {
          var i :| 0 <= i < |locs| && locs[i] == r.value && Incoming(graph.links, r.value) == [];
        }
      }
      assert r.None? ==> forall x :: x in locs ==> Incoming(graph.links, x) != [] by {
        forall x | r.None? && x in locs
          ensures Incoming(graph.links, x) != []
        {
          var i :| 0 <= i < |locs| && locs[i] == x;
        }
      }
      r
    }

    /** `getEndNode` on this graph's current locations and links: the first location without an outgoing link. */
    function GetEndNode(): (r: Option<Location>)
      reads this, graph
      ensures r.None? <==> forall x :: x in graph.locations ==> Outgoing(graph.links, x) != []
      ensures r.Some? ==> r.value in graph.locations && Outgoing(graph.links, r.value) == []
      ensures r.Some? ==> exists i :: (&& 0 <= i < |graph.locations| && graph.locations[i] == r.value
                                       && forall j :: 0 <= j < i ==> Outgoing(graph.links, graph.locations[j]) != [])
    {
      var locs := graph.locations;
      var r := EndNode(locs, graph.links);
      assert r.Some? ==> r.value in locs && Outgoing(graph.links, r.value) == [] by {
        if r.Some? {
          var i :| 0 <= i < |locs| && locs[i] == r.value && Outgoing(graph.links, r.value) == [];
        }
      }
      assert r.None? ==> forall x :: x in locs ==> Outgoing(graph.links, x) != [] by {
        forall x | r.None? && x in locs
          ensures Outgoing(graph.links, x) != []
        {
          var i :| 0 <= i < |locs| && locs[i] == x;
        }
      }
      r
    }
  }

  class Service {
    var description: string
    var components: seq<Component>
    var requiredThroughput: Num
    var requiredLatency: Num
    var graphs: map<string, ServiceGraph>
    var paths: seq<ServicePath>

    /** A new service has no graph and no path yet. */
    constructor (description: string, components: seq<Component>, requiredThroughput: Num, requiredLatency: Num)
      ensures this.description == description && this.components == components
      ensures this.requiredThroughput == requiredThroughput && this.requiredLatency == requiredLatency
      ensures graphs == map[] && paths == []
    {
      this.description := description;
      this.components := components;
      this.requiredThroughput := requiredThroughput;
      this.requiredLatency := requiredLatency;
      graphs := map[];
      paths := [];
    }

    /** `addComponents`: appends exactly one component at the end. */
    method AddComponents(component: Component)
      modifies this
      ensures components == old(components) + [component]
      ensures description == old(description) && graphs == old(graphs) && paths == old(paths)
      ensures requiredThroughput == old(requiredThroughput) && requiredLatency == old(requiredLatency)
    {
      components := components + [component];
    }

    /**
     * `addGraph`: builds the service graph of `t` for this service's components and stores it
     * under `t.name`, named `<t.name>_<description>`; when `make_graph` fails nothing is stored.
     */
    method AddGraph(ids: IdCounter, t: Topology) returns (r: Result<(), BuildError>)
      requires ids.Valid() && t.Valid()
      requires IdsIdentify(t.locations) && forall x :: x in t.locations ==> x.id in ids.issued
      modifies this, ids
      ensures ids.Valid()
      ensures var b := MakeGraphSpec(old(t.locations), old(t.links), Descriptions(old(components)), old(ids.next));
        && ids.next == b.next
        && (r.Failure? <==> b.result.Failure?)
        && (r.Failure? ==> graphs == old(graphs))
        && (r.Success? ==>
              && t.name in graphs && fresh(graphs[t.name]) && fresh(graphs[t.name].graph)
              && graphs == old(graphs)[t.name := graphs[t.name]]
              && graphs[t.name].graph.Valid()
              && graphs[t.name].graph.name == t.name + "_" + description
              && graphs[t.name].graph.locations == b.result.value.nodes
              && graphs[t.name].graph.links == b.result.value.edges
              && graphs[t.name].paths == [])
      ensures description == old(description) && components == old(components) && paths == old(paths)
      ensures requiredThroughput == old(requiredThroughput) && requiredLatency == old(requiredLatency)
    {
      var descs := Descriptions(components);
      ghost var start := ids.next;
      var built := MakeGraph(ids, t.locations, t.links, descs);
      if built.Failure? {
        return Failure(built.error);
      }
      BuiltGraphWellFormed(t.locations, t.links, descs, start);
      StoreGraph(t.name, t.name + "_" + description, built.value.nodes, built.value.edges);
      r := Success(());
    }

    /** The store of `addGraph`: a new service graph of these nodes and edges under `key`. */
    method StoreGraph(key: string, name: string, nodes: seq<Location>, edges: seq<Link>)
      requires forall x :: x in nodes ==> x.WellFormed()
      requires forall l :: l in edges ==> l.source.WellFormed() && l.sink.WellFormed()
      modifies this
      ensures key in graphs && fresh(graphs[key]) && fresh(graphs[key].graph)
      ensures graphs == old(graphs)[key := graphs[key]]
      ensures graphs[key].graph.Valid() && graphs[key].paths == []
      ensures graphs[key].graph.name == name && graphs[key].graph.locations == nodes && graphs[key].graph.links == edges
      ensures description == old(description) && components == old(components) && paths == old(paths)
      ensures requiredThroughput == old(requiredThroughput) && requiredLatency == old(requiredLatency)
    {
      var g := new ServiceGraph(name, nodes, edges);
      graphs := graphs[key := g];
    }

    /** `getGraph`: the graph stored under the topology's name, or none. */
    function GetGraph(t: Topology): (r: Option<ServiceGraph>)
      reads this, t
      ensures r.Some? <==> t.name in graphs
      ensures r.Some? ==> r.value == graphs[t.name]
    {
      if t.name in graphs then Some(graphs[t.name]) else None
    }
  }
}
