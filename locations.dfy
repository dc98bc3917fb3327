/**
 * Locations of the physical datacenter (class `location` of topology_class.py)
 * and the process-wide id counters the source keeps in class attributes.
 */
module Locations {
  import opened Wrappers

  /** Link parameters, resources and costs are floats in the source; here they are opaque numbers. */
  type Num = int

  /**
   * An id counter (`itertools.count()`): `next` is the value the next draw returns,
   * `issued` every value drawn so far.
   */
  class IdCounter {
    var next: nat
    ghost var issued: set<nat>

    ghost predicate Valid()
      reads this
    {
      forall i :: i in issued ==> i < next
    }

    constructor (start: nat)
      ensures Valid() && next == start && issued == {}
    {
      next := start;
      issued := {};
    }

    /** `next(id_iter)`: returns a value strictly greater than every value drawn before. */
    method Draw() returns (id: nat)
      requires Valid()
      modifies this
      ensures Valid()
      ensures id == old(next) && next == old(next) + 1
      ensures id !in old(issued) && forall j :: j in old(issued) ==> j < id
      ensures issued == old(issued) + {id}
    {
      id := next;
      next := next + 1;
      issued := issued + {id};
    }
  }

  datatype LocationType = Gateway | SuperSpine | Spine | Leaf | Node | Dummy

  /** The type tag as the source spells it. */
  function TypeName(t: LocationType): string
  {
    match t
    case Gateway => "gateway"
    case SuperSpine => "super_spine"
    case Spine => "spine"
    case Leaf => "leaf"
    case Node => "node"
    case Dummy => "dummy"
  }

  /** The tag a type string denotes, or None for any string outside the six accepted ones. */
  function ParseType(s: string): (r: Option<LocationType>)
    ensures r.Some? ==> TypeName(r.value) == s
    ensures r.None? ==> forall t: LocationType :: TypeName(t) != s
  {
    if s == "gateway" then Some(Gateway)
    else if s == "super_spine" then Some(SuperSpine)
    else if s == "spine" then Some(Spine)
    else if s == "leaf" then Some(Leaf)
    else if s == "node" then Some(Node)
    else if s == "dummy" then Some(Dummy)
    else None
  }

  lemma ParseTypeName(t: LocationType)
    ensures ParseType(TypeName(t)) == Some(t)
  {
    match t
    case Gateway =>
    case SuperSpine => assert TypeName(t)[0] == 's' && TypeName(t)[1] == 'u';
    case Spine => assert TypeName(t)[1] == 'p';
    case Leaf =>
    case Node =>
    case Dummy =>
  }

  datatype LocationError =
    | InvalidType(name: string)
    | MissingResources
    | UnexpectedResources
    | NotANode
    | MissingKey(key: string)

  /**
   * A location. `resources` is the optional resource dictionary, `cost` the optional cost;
   * both hold the source's float values as opaque numbers.
   */
  datatype Location = Location(
    id: nat,
    description: string,
    ltype: LocationType,
    resources: Option<map<string, Num>>,
    cost: Option<Num>)
  {
    /** Resources are present exactly when the location is a compute node. */
    ghost predicate WellFormed()
    {
      resources.Some? <==> ltype == Node
    }

    /** The `cpu` property: only nodes have one, and its resources must hold the key. */
    function Cpu(): (r: Result<Num, LocationError>)
      ensures r.Success? <==> ltype == Node && resources.Some? && "cpu" in resources.value
      ensures r.Success? ==> r.value == resources.value["cpu"]
      ensures ltype != Node ==> r == Failure(NotANode)
    {
      ResourceEntry("cpu")
    }

    /** The `ram` property, like `Cpu`. */
    function Ram(): (r: Result<Num, LocationError>)
      ensures r.Success? <==> ltype == Node && resources.Some? && "ram" in resources.value
      ensures r.Success? ==> r.value == resources.value["ram"]
      ensures ltype != Node ==> r == Failure(NotANode)
    {
      ResourceEntry("ram")
    }

    function ResourceEntry(key: string): Result<Num, LocationError>
    {
      if ltype != Node then Failure(NotANode)
      else if resources.None? || key !in resources.value then Failure(MissingKey(key))
      else Success(resources.value[key])
    }
  }

  /**
   * The validation of the `location` constructor: the type tag must be one of the six,
   * a node must have resources and any other location must have none.
   */
  function CheckLocation(typeName: string, resources: Option<map<string, Num>>): (r: Result<LocationType, LocationError>)
    ensures r.Success? <==> ParseType(typeName).Some? && (resources.Some? <==> typeName == "node")
    ensures r.Success? ==> TypeName(r.value) == typeName
    ensures ParseType(typeName).None? ==> r == Failure(InvalidType(typeName))
    ensures typeName == "node" && resources.None? ==> r == Failure(MissingResources)
    ensures ParseType(typeName).Some? && typeName != "node" && resources.Some? ==> r == Failure(UnexpectedResources)
  {
    match ParseType(typeName)
    case None => Failure(InvalidType(typeName))
    case Some(t) =>
      if typeName == "node" && resources.None? then Failure(MissingResources)
      else if typeName != "node" && resources.Some? then Failure(UnexpectedResources)
      else Success(t)
  }

  /**
   * The `location` constructor. The id is drawn before the type is checked, so a rejected
   * construction still advances the counter.
   */
  method NewLocation(ids: IdCounter, description: string, typeName: string,
                     resources: Option<map<string, Num>>, cost: Option<Num>)
    returns (r: Result<Location, LocationError>)
    requires ids.Valid()
    modifies ids
    ensures ids.Valid() && ids.next == old(ids.next) + 1 && ids.issued == old(ids.issued) + {old(ids.next)}
    ensures r.Success? <==> CheckLocation(typeName, resources).Success?
    ensures r.Failure? ==> r.error == CheckLocation(typeName, resources).error
    ensures r.Success? ==> r.value == Location(old(ids.next), description, CheckLocation(typeName, resources).value, resources, cost)
    ensures r.Success? ==> r.value.WellFormed() && r.value.id !in old(ids.issued)
  {
    var id := ids.Draw();
    var check := CheckLocation(typeName, resources);
    match check
    case Failure(e) => r := Failure(e);
    case Success(t) => r := Success(Location(id, description, t, resources, cost));
  }

  /** The location `copy` returns when given the fresh id `id`: the cost is not carried over. */
  function CopyOf(l: Location, id: nat): (c: Location)
    ensures c.id == id && c.cost.None?
    ensures c.description == l.description && c.ltype == l.ltype && c.resources == l.resources
  {
    Location(id, l.description, l.ltype, l.resources, None)
  }

  /** `location.copy`: a new location, with a fresh id, of the same description, type and resources. */
  method Copy(ids: IdCounter, l: Location) returns (c: Location)
    requires ids.Valid() && l.WellFormed()
    modifies ids
    ensures ids.Valid() && ids.next == old(ids.next) + 1 && ids.issued == old(ids.issued) + {old(ids.next)}
    ensures c == CopyOf(l, old(ids.next)) && c.WellFormed()
    ensures c.id !in old(ids.issued)
  {
    var r := NewLocation(ids, l.description, TypeName(l.ltype), l.resources, None);
    ParseTypeName(l.ltype);
    c := r.value;
  }
}
