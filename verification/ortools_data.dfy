/**
 The data the OR-Tools back end prepares before it hands the problem to the
 routing library (backend/services/ortools.py): the dense matrix, the fleet
 expanded into one capacity per vehicle, the single depot, and the time-window
 ranges placed on the time dimension of a TWVRP.
 */
module OrToolsData {
  import opened Models
  import opened CostMatrix

  /** The key under which the matrix is stored: distances for a CVRP, times otherwise. */
  datatype Unit = DistanceMatrix | TimeMatrix

  datatype DataModel = DataModel(
    demands: Option<seq<int>>,
    timeWindows: Option<seq<TimeWindow>>,
    unit: Unit,
    matrix: Matrix,
    vehicleCapacities: seq<int>,
    numVehicles: int,
    depot: int)

  /** The side of the matrix: the number of demands of a CVRP (none when the
      demands are absent, where the service fails), the number of time windows otherwise. */
  function PointsNum(p: VRProblem): Option<nat> {
    match p.kind
    case Capacitated => if p.demands.Some? then Some(|p.demands.value|) else None
    case TimeWindowed(tw) => Some(|tw|)
  }

  /** `count` copies of `x`; none when `count` is zero or negative, as `range` gives. */
  function Repeat(x: int, count: int): (r: seq<int>)
    ensures |r| == if count > 0 then count else 0
    ensures forall k :: 0 <= k < |r| ==> r[k] == x
    decreases count
  {
    if count <= 0 then [] else Repeat(x, count - 1) + [x]
  }

  /** The capacity list after the vehicle loop has run over `vehicles`. */
  function VehicleCapacities(vehicles: seq<VehiclesType>): seq<int>
    decreases |vehicles|
  {
    if |vehicles| == 0 then []
    else
      var vt := vehicles[|vehicles| - 1];
      VehicleCapacities(vehicles[..|vehicles| - 1]) + Repeat(vt.capacity, vt.number)
  }

  /** The vehicle count after the loop: the plain sum of the `number` fields. */
  function NumVehicles(vehicles: seq<VehiclesType>): int
    decreases |vehicles|
  {
    if |vehicles| == 0 then 0
    else NumVehicles(vehicles[..|vehicles| - 1]) + vehicles[|vehicles| - 1].number
  }

  /** How many vehicles the types really contribute: negative counts contribute none. */
  function ClampedCount(vehicles: seq<VehiclesType>): nat
    decreases |vehicles|
  {
    if |vehicles| == 0 then 0
    else
      var n := vehicles[|vehicles| - 1].number;
      ClampedCount(vehicles[..|vehicles| - 1]) + (if n > 0 then n else 0)
  }

  predicate AllCountsNonNegative(vehicles: seq<VehiclesType>) {
    forall t :: 0 <= t < |vehicles| ==> vehicles[t].number >= 0
  }

  function TimeWindowsOf(p: VRProblem): Option<seq<TimeWindow>> {
    if p.kind.TimeWindowed? then Some(p.kind.timeWindows) else None
  }

  /** `create_data_model`: fails where the service fails (the length of absent demands,
      the first of an empty depot list), and otherwise builds the matrix of side
      `PointsNum(p)`, the expanded fleet and the first listed depot. */
  function CreateDataModel(p: VRProblem): (r: Result<DataModel>)
    requires PointsNum(p).Some? ==> EdgesWithin(p.edges, PointsNum(p).value)
    ensures PointsNum(p).None? ==> r == Err(MissingDemands)
    ensures PointsNum(p).Some? && |p.depotIndices| == 0 ==> r == Err(NoDepot)
    ensures r.Ok? ==>
      && PointsNum(p).Some? && |p.depotIndices| > 0
      && IsSquare(r.value.matrix, PointsNum(p).value)
      && r.value.matrix == BuildMatrix(PointsNum(p).value, p.edges)
      && r.value.depot == p.depotIndices[0]
      && r.value.demands == p.demands
      && (r.value.unit == DistanceMatrix <==> p.kind.Capacitated?)
      && (r.value.timeWindows.Some? <==> p.kind.TimeWindowed?)
      && r.value.timeWindows == TimeWindowsOf(p)
      && r.value.vehicleCapacities == VehicleCapacities(p.vehicles)
      && r.value.numVehicles == NumVehicles(p.vehicles)
  {
    match PointsNum(p)
    case None => Err(MissingDemands)
    case Some(n) =>
      if |p.depotIndices| == 0 then Err(NoDepot)
      else
        Ok(DataModel(
          p.demands,
          TimeWindowsOf(p),
          if p.kind.Capacitated? then DistanceMatrix else TimeMatrix,
          BuildMatrix(n, p.edges),
          VehicleCapacities(p.vehicles),
          NumVehicles(p.vehicles),
          p.depotIndices[0]))
  }

  /** The matrix of a data model, cell by cell: an edge-named cell holds 100 times
      the cost of the last edge naming it; any other cell is 0 on the diagonal and
      the sentinel elsewhere. */
  lemma DataModelCells(p: VRProblem, i: nat, j: nat)
    requires PointsNum(p).Some? && EdgesWithin(p.edges, PointsNum(p).value)
    requires CreateDataModel(p).Ok? && i < PointsNum(p).value && j < PointsNum(p).value
    ensures (forall k :: 0 <= k < |p.edges| ==> !Names(p.edges[k], i, j)) ==>
      CreateDataModel(p).value.matrix[i][j] == (if i == j then 0 else Sentinel)
    ensures forall k ::
      (0 <= k < |p.edges| && Names(p.edges[k], i, j)
       && (forall k' :: k < k' < |p.edges| ==> !Names(p.edges[k'], i, j))) ==>
      CreateDataModel(p).value.matrix[i][j] == CostMultiplier * p.edges[k].cost
  {
    var n := PointsNum(p).value;
    if forall k :: 0 <= k < |p.edges| ==> !Names(p.edges[k], i, j) {
      UnnamedCell(n, p.edges, i, j);
    }
    forall k | 0 <= k < |p.edges| && Names(p.edges[k], i, j)
        && (forall k' :: k < k' < |p.edges| ==> !Names(p.edges[k'], i, j))
      ensures CreateDataModel(p).value.matrix[i][j] == CostMultiplier * p.edges[k].cost
    {
      NamedCell(n, p.edges, i, j, k);
    }
  }

  /** Expanding two lists of types one after the other is expanding their concatenation. */
  lemma {:induction false} VehicleCapacitiesAppend(a: seq<VehiclesType>, b: seq<VehiclesType>)
    ensures VehicleCapacities(a + b) == VehicleCapacities(a) + VehicleCapacities(b)
    decreases |b|
  {
    if |b| > 0 {
      var b' := b[..|b| - 1];
      assert (a + b)[..|a + b| - 1] == a + b';
      assert (a + b)[|a + b| - 1] == b[|b| - 1];
      assert b[..|b| - 1] == b';
      VehicleCapacitiesAppend(a, b');
      var tail := Repeat(b[|b| - 1].capacity, b[|b| - 1].number);
      calc {
        VehicleCapacities(a + b);
        VehicleCapacities(a + b') + tail;
        VehicleCapacities(a) + VehicleCapacities(b') + tail;
        VehicleCapacities(a) + (VehicleCapacities(b') + tail);
        VehicleCapacities(a) + VehicleCapacities(b);
      }
    } else {
      assert a + b == a;
    }
  }

  /** The capacity list holds one entry per vehicle actually created. */
  lemma {:induction false} FleetLength(vehicles: seq<VehiclesType>)
    ensures |VehicleCapacities(vehicles)| == ClampedCount(vehicles)
    decreases |vehicles|
  {
    if |vehicles| > 0 {
      FleetLength(vehicles[..|vehicles| - 1]);
    }
  }

  /** With no negative counts, `num_vehicles` is the length of the capacity list. */
  lemma {:induction false} FleetSize(vehicles: seq<VehiclesType>)
    requires AllCountsNonNegative(vehicles)
    ensures NumVehicles(vehicles) == |VehicleCapacities(vehicles)|
    decreases |vehicles|
  {
    FleetLength(vehicles);
    if |vehicles| > 0 {
      FleetSize(vehicles[..|vehicles| - 1]);
      FleetLength(vehicles[..|vehicles| - 1]);
    }
  }

  /** The vehicles of type `t` sit in one block, after those of the earlier types,
      and each of them has the capacity of type `t`. */
  lemma VehicleCapacityOfType(vehicles: seq<VehiclesType>, t: nat, j: nat)
    requires t < |vehicles| && j < vehicles[t].number
    ensures |VehicleCapacities(vehicles[..t])| + j < |VehicleCapacities(vehicles)|
    ensures VehicleCapacities(vehicles)[|VehicleCapacities(vehicles[..t])| + j] == vehicles[t].capacity
  {
    var before, vt, after := vehicles[..t], vehicles[t], vehicles[t + 1..];
    assert vehicles == before + [vt] + after;
    VehicleCapacitiesAppend(before + [vt], after);
    VehicleCapacitiesAppend(before, [vt]);
    assert VehicleCapacities([vt]) == VehicleCapacities([]) + Repeat(vt.capacity, vt.number);
  }

  /** The ranges put on the time dimension: one optional range per location
      (the depot's own location is skipped) and one range per vehicle start. */
  datatype TimeBounds = TimeBounds(locationRanges: seq<Option<TimeWindow>>, startRanges: seq<TimeWindow>)

  /** Whether `i` reads an entry of a list of `len` entries, counting Python's
      negative positions from the end. */
  predicate PyIndexValid(i: int, len: nat) {
    -(len as int) <= i < len
  }

  /** The entry a valid Python index reads. */
  function PyIndex(i: int, len: nat): (k: nat)
    requires PyIndexValid(i, len)
    ensures k < len
  {
    if i < 0 then len + i else i
  }

  /** The two time-window loops of `solveTwvrp`. The location loop never fails; the
      vehicle loop reads the depot's window, which fails on its first vehicle when the
      depot is no position of the window list. */
  method AssignTimeWindows(timeWindows: seq<TimeWindow>, depot: int, numVehicles: int)
    returns (r: Result<TimeBounds>)
    ensures r.Err? <==> numVehicles > 0 && !PyIndexValid(depot, |timeWindows|)
    ensures r.Err? ==> r.error == WindowIndexOutOfRange
    ensures r.Ok? ==>
      && |r.value.locationRanges| == |timeWindows|
      && (forall i :: 0 <= i < |timeWindows| ==> (r.value.locationRanges[i].None? <==> i == depot))
      && (forall i :: 0 <= i < |timeWindows| && i != depot ==> r.value.locationRanges[i] == Some(timeWindows[i]))
      && |r.value.startRanges| == (if numVehicles > 0 then numVehicles else 0)
    ensures r.Ok? && numVehicles > 0 ==>
      forall v :: 0 <= v < |r.value.startRanges| ==>
        r.value.startRanges[v] == timeWindows[PyIndex(depot, |timeWindows|)]
  {
    var ranges: seq<Option<TimeWindow>> := [];
    var i := 0;
    while i < |timeWindows|
      invariant i <= |timeWindows| && |ranges| == i
      invariant forall l :: 0 <= l < i ==> ranges[l] == (if l == depot then None else Some(timeWindows[l]))
    {
      if i == depot {
        ranges := ranges + [None];
      } else {
        ranges := ranges + [Some(timeWindows[i])];
      }
      i := i + 1;
    }
    var starts: seq<TimeWindow> := [];
    if numVehicles > 0 && !PyIndexValid(depot, |timeWindows|) {
      return Err(WindowIndexOutOfRange);
    }
    var v := 0;
    while v < numVehicles
      invariant 0 <= v && |starts| == v
      invariant if numVehicles > 0 then v <= numVehicles else v == 0
      invariant forall w :: 0 <= w < v ==> starts[w] == timeWindows[PyIndex(depot, |timeWindows|)]
    {
      starts := starts + [timeWindows[PyIndex(depot, |timeWindows|)]];
      v := v + 1;
    }
    r := Ok(TimeBounds(ranges, starts));
  }
}
