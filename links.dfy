/** Links of the physical datacenter (class `link` of topology_class.py). */
module Links {
  import opened Wrappers
  import opened Locations

  /** The source's `inf` sentinel, the bandwidth of every zero-cost edge the service graph adds. */
  const Inf: Num := 10000

  datatype LinkError = MissingParameter(key: string) | CopyArity

  /**
   * A directed link. The endpoints are the location records themselves; which location
   * an endpoint is, is decided by its id.
   */
  datatype Link = Link(source: Location, sink: Location, parameters: map<string, Num>, twoWay: bool)
  {
    /** `"(source description, sink description)"`. */
    function Description(): (d: string)
      ensures |d| == |source.description| + |sink.description| + 4
      ensures d[0] == '(' && d[|d| - 1] == ')'
      ensures d[1..1 + |source.description|] == source.description
      ensures d[1 + |source.description|..3 + |source.description|] == ", "
      ensures d[3 + |source.description|..|d| - 1] == sink.description
    {
      "(" + source.description + ", " + sink.description + ")"
    }

    function Parameter(key: string): (r: Result<Num, LinkError>)
      ensures r.Success? <==> key in parameters
      ensures r.Success? ==> r.value == parameters[key]
      ensures r.Failure? ==> r.error == MissingParameter(key)
    {
      if key in parameters then Success(parameters[key]) else Failure(MissingParameter(key))
    }

    function Bandwidth(): Result<Num, LinkError> { Parameter("bandwidth") }

    function Latency(): Result<Num, LinkError> { Parameter("latency") }

    function Cost(): Result<Num, LinkError> { Parameter("cost") }

    /** `setLatency`: the latency reads back as given; nothing else about the link changes. */
    function SetLatency(latency: Num): (r: Link)
      ensures r.Latency() == Success(latency)
      ensures r.Bandwidth() == Bandwidth() && r.Cost() == Cost()
      ensures forall k :: k != "latency" ==> r.Parameter(k) == Parameter(k)
      ensures r.source == source && r.sink == sink && r.twoWay == twoWay
    {
      this.(parameters := parameters["latency" := latency])
    }

    /** `setBandwidth`: the bandwidth reads back as given; nothing else about the link changes. */
    function SetBandwidth(bandwidth: Num): (r: Link)
      ensures r.Bandwidth() == Success(bandwidth)
      ensures r.Latency() == Latency() && r.Cost() == Cost()
      ensures forall k :: k != "bandwidth" ==> r.Parameter(k) == Parameter(k)
      ensures r.source == source && r.sink == sink && r.twoWay == twoWay
    {
      this.(parameters := parameters["bandwidth" := bandwidth])
    }

    /** `setLinkCost`: the cost reads back as given; nothing else about the link changes. */
    function SetLinkCost(cost: Num): (r: Link)
      ensures r.Cost() == Success(cost)
      ensures r.Bandwidth() == Bandwidth() && r.Latency() == Latency()
      ensures forall k :: k != "cost" ==> r.Parameter(k) == Parameter(k)
      ensures r.source == source && r.sink == sink && r.twoWay == twoWay
    {
      this.(parameters := parameters["cost" := cost])
    }

    /** `copy_with_new_nodes`: the same parameters and flag between new endpoints. */
    function CopyWithNewNodes(newSource: Location, newSink: Location): (r: Link)
      ensures r.source == newSource && r.sink == newSink
      ensures r.parameters == parameters && r.twoWay == twoWay
      ensures r.Description() == "(" + newSource.description + ", " + newSink.description + ")"
    {
      Link(newSource, newSink, parameters, twoWay)
    }
  }

  /**
   * `link.copy` passes five arguments to a four-parameter constructor, so it always raises;
   * the two endpoint copies it makes first have already drawn two ids.
   */
  method CopyLink(ids: IdCounter, l: Link) returns (r: Result<Link, LinkError>)
    requires ids.Valid() && l.source.WellFormed() && l.sink.WellFormed()
    modifies ids
    ensures ids.Valid() && ids.next == old(ids.next) + 2
    ensures r == Failure(CopyArity)
  {
    var s := Copy(ids, l.source);
    var t := Copy(ids, l.sink);
    r := Failure(CopyArity);
  }
}
