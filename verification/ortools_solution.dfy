/**
 What the OR-Tools back end reports once the routing library has searched
 (backend/services/ortools.py `print_cvrp_solution`, `print_twvrp_solution`
 and the result branches of `solveCvrp` and `solveTwvrp`).

 The library's solution object is replaced by an `Assignment`: for every vehicle
 the routing indices its route passes through, from its start index to its end
 index, and whether the vehicle is used. The library's `IndexToNode` and
 `GetArcCostForVehicle` are function parameters.
 */
module OrToolsSolution {
  import opened Models
  import opened CostMatrix
  import opened OrToolsData

  datatype Assignment = Assignment(routes: seq<seq<int>>, used: seq<bool>)

  /** Every vehicle has a used flag and a route holding at least its start and its
      end index; routing indices are never negative. */
  predicate WellFormed(a: Assignment) {
    && |a.used| == |a.routes|
    && (forall v :: 0 <= v < |a.routes| ==> |a.routes[v]| >= 2)
    && (forall v, k :: 0 <= v < |a.routes| && 0 <= k < |a.routes[v]| ==> a.routes[v][k] >= 0)
  }

  /** The vertex of each routing index of a route. */
  function Nodes(route: seq<int>, nodeOf: int -> int): (r: seq<int>)
    ensures |r| == |route|
    ensures forall k :: 0 <= k < |route| ==> r[k] == nodeOf(route[k])
  {
    seq(|route|, k requires 0 <= k < |route| => nodeOf(route[k]))
  }

  /** A node list without its first and its last element. */
  function Interior(s: seq<int>): seq<int>
    requires |s| >= 2
  {
    s[1..|s| - 1]
  }

  function Min(a: int, b: int): int {
    if a <= b then a else b
  }

  /** The demands of the given vertices, added up. */
  function DemandSum(demands: seq<int>, nodes: seq<int>): int
    requires forall k :: 0 <= k < |nodes| ==> 0 <= nodes[k] < |demands|
    decreases |nodes|
  {
    if |nodes| == 0 then 0
    else DemandSum(demands, nodes[..|nodes| - 1]) + demands[nodes[|nodes| - 1]]
  }

  /** The first `m` arcs the CVRP report charges: the k-th goes from the VERTEX of
      the k-th routing index to the routing index two places further on (or to the
      end index, when fewer places remain). */
  function SkipArcSum(route: seq<int>, nodeOf: int -> int, arcCost: (int, int, int) -> int,
                      vehicle: int, m: nat): int
    requires |route| >= 2 && m <= |route| - 1
    decreases m
  {
    if m == 0 then 0
    else
      SkipArcSum(route, nodeOf, arcCost, vehicle, m - 1)
      + arcCost(nodeOf(route[m - 1]), route[Min(m + 1, |route| - 1)], vehicle)
  }

  /** The cost of following a route arc by arc, from one routing index to the next. */
  function PathArcSum(route: seq<int>, arcCost: (int, int, int) -> int, vehicle: int): int
    decreases |route|
  {
    if |route| < 2 then 0
    else PathArcSum(route[..|route| - 1], arcCost, vehicle)
         + arcCost(route[|route| - 2], route[|route| - 1], vehicle)
  }

  /** The travel time of a vertex sequence, summed over its consecutive pairs. */
  function PathCost(m: Matrix, s: seq<int>): int
    requires forall k :: 0 <= k < |s| ==> 0 <= s[k] < |m| && |m[s[k]]| == |m|
    decreases |s|
  {
    if |s| < 2 then 0
    else PathCost(m, s[..|s| - 1]) + m[s[|s| - 2]][s[|s| - 1]]
  }

  /** One CVRP route as the report walks it: the vertices strictly between the two
      depot visits, the load summed over every vertex but the end (the start depot
      included), and one charged arc per vertex but the end. */
  method WalkCvrpRoute(route: seq<int>, nodeOf: int -> int, demands: seq<int>,
                       arcCost: (int, int, int) -> int, vehicle: int)
    returns (visits: seq<int>, load: int, distance: int)
    requires |route| >= 2
    requires forall k :: 0 <= k < |route| - 1 ==> 0 <= nodeOf(route[k]) < |demands|
    ensures visits == Interior(Nodes(route, nodeOf))
    ensures load == DemandSum(demands, Nodes(route, nodeOf)[..|route| - 1])
    ensures distance == SkipArcSum(route, nodeOf, arcCost, vehicle, |route| - 1)
  {
    ghost var nodes := Nodes(route, nodeOf);
    var k := 0;
    var index := route[0];
    distance := 0;
    load := 0;
    var previous := -1;
    visits := [];
    // The end index is the last one of the route.
    while k != |route| - 1
      invariant 0 <= k <= |route| - 1 && index == route[k]
      invariant visits == nodes[..k]
      invariant load == DemandSum(demands, nodes[..k])
      invariant previous == if k == 0 then -1 else nodeOf(route[k - 1])
      invariant distance == if k == 0 then 0 else SkipArcSum(route, nodeOf, arcCost, vehicle, k - 1)
    {
      var node := nodeOf(index);
      visits := visits + [node];
      load := load + demands[node];
      assert nodes[..k + 1][..k] == nodes[..k];
      index := route[k + 1];
      if previous != -1 {
        distance := distance + arcCost(previous, index, vehicle);
      }
      previous := node;
      k := k + 1;
    }
    visits := visits[1..];
    distance := distance + arcCost(previous, index, vehicle);
  }

  /** One TWVRP route as the report walks it, adding to the running total `time0`:
      every vertex including both depots, and the matrix time of each consecutive pair. */
  method WalkTwvrpRoute(route: seq<int>, nodeOf: int -> int, timeMatrix: Matrix, n: nat, time0: int)
    returns (visits: seq<int>, time: int)
    requires |route| >= 2 && IsSquare(timeMatrix, n)
    requires forall k :: 0 <= k < |route| ==> route[k] >= 0 && 0 <= nodeOf(route[k]) < n
    ensures visits == Nodes(route, nodeOf)
    ensures time == time0 + PathCost(timeMatrix, visits)
  {
    ghost var nodes := Nodes(route, nodeOf);
    var k := 0;
    var index := route[0];
    var previous := -1;
    time := time0;
    visits := [];
    while k != |route| - 1
      invariant 0 <= k <= |route| - 1 && index == route[k]
      invariant visits == nodes[..k]
      invariant previous == if k == 0 then -1 else route[k - 1]
      invariant time == time0 + PathCost(timeMatrix, nodes[..k])
    {
      if previous != -1 {
        time := time + timeMatrix[nodeOf(previous)][nodeOf(index)];
      }
      assert nodes[..k + 1][..k] == nodes[..k];
      previous := index;
      visits := visits + [nodeOf(index)];
      k := k + 1;
      index := route[k];
    }
    time := time + timeMatrix[nodeOf(previous)][nodeOf(index)];
    assert nodes[..k + 1][..k] == nodes[..k];
    visits := visits + [nodeOf(index)];
    assert nodes[..k + 1] == nodes;
  }

  /** The vertices of the non-end routing indices of every used vehicle index demands. */
  predicate CvrpNodesWithin(a: Assignment, nodeOf: int -> int, size: nat)
    requires WellFormed(a)
  {
    forall v, k :: 0 <= v < |a.routes| && a.used[v] && 0 <= k < |a.routes[v]| - 1 ==>
      0 <= nodeOf(a.routes[v][k]) < size
  }

  /** Every vertex on the route of every used vehicle indexes the matrix. */
  predicate NodesWithin(a: Assignment, nodeOf: int -> int, size: nat)
    requires WellFormed(a)
  {
    forall v, k :: 0 <= v < |a.routes| && a.used[v] && 0 <= k < |a.routes[v]| ==>
      0 <= nodeOf(a.routes[v][k]) < size
  }

  /** The interior lists of the used vehicles among the first `n`, in vehicle order. */
  function UsedInteriors(a: Assignment, nodeOf: int -> int, n: nat): seq<seq<int>>
    requires WellFormed(a) && n <= |a.routes|
    decreases n
  {
    if n == 0 then []
    else UsedInteriors(a, nodeOf, n - 1)
         + (if a.used[n - 1] then [Interior(Nodes(a.routes[n - 1], nodeOf))] else [])
  }

  /** The full vertex lists of the used vehicles among the first `n`, in vehicle order. */
  function UsedRoutes(a: Assignment, nodeOf: int -> int, n: nat): seq<seq<int>>
    requires WellFormed(a) && n <= |a.routes|
    decreases n
  {
    if n == 0 then []
    else UsedRoutes(a, nodeOf, n - 1)
         + (if a.used[n - 1] then [Nodes(a.routes[n - 1], nodeOf)] else [])
  }

  /** The charged CVRP distances of the used vehicles among the first `n`, added up. */
  function UsedDistance(a: Assignment, nodeOf: int -> int, arcCost: (int, int, int) -> int, n: nat): int
    requires WellFormed(a) && n <= |a.routes|
    decreases n
  {
    if n == 0 then 0
    else
      var route := a.routes[n - 1];
      UsedDistance(a, nodeOf, arcCost, n - 1)
      + (if a.used[n - 1] then SkipArcSum(route, nodeOf, arcCost, n - 1, |route| - 1) else 0)
  }

  /** The travel times of the used vehicles among the first `n`, added up. */
  function UsedTime(a: Assignment, nodeOf: int -> int, m: Matrix, size: nat, n: nat): int
    requires WellFormed(a) && n <= |a.routes| && IsSquare(m, size) && NodesWithin(a, nodeOf, size)
    decreases n
  {
    if n == 0 then 0
    else
      UsedTime(a, nodeOf, m, size, n - 1)
      + (if a.used[n - 1] then PathCost(m, Nodes(a.routes[n - 1], nodeOf)) else 0)
  }

  /** How many of the first `n` vehicles are used. */
  function CountUsed(used: seq<bool>, n: nat): nat
    requires n <= |used|
    decreases n
  {
    if n == 0 then 0 else CountUsed(used, n - 1) + (if used[n - 1] then 1 else 0)
  }

  /** `print_cvrp_solution`: one interior list per used vehicle, in vehicle order,
      and the charged distance of all routes divided by the multiplier. */
  method PrintCvrpSolution(demands: seq<int>, a: Assignment, nodeOf: int -> int,
                           arcCost: (int, int, int) -> int)
    returns (totalDistance: real, visits: seq<seq<int>>)
    requires WellFormed(a) && CvrpNodesWithin(a, nodeOf, |demands|)
    ensures visits == UsedInteriors(a, nodeOf, |a.routes|)
    ensures totalDistance * CostMultiplier as real == UsedDistance(a, nodeOf, arcCost, |a.routes|) as real
  {
    var distanceSum := 0;
    var totalLoad := 0;
    visits := [];
    var vehicle := 0;
    while vehicle < |a.routes|
      invariant vehicle <= |a.routes|
      invariant visits == UsedInteriors(a, nodeOf, vehicle)
      invariant distanceSum == UsedDistance(a, nodeOf, arcCost, vehicle)
    {
      if a.used[vehicle] {
        var routeVisits, routeLoad, routeDistance :=
          WalkCvrpRoute(a.routes[vehicle], nodeOf, demands, arcCost, vehicle);
        visits := visits + [routeVisits];
        distanceSum := distanceSum + routeDistance;
        totalLoad := totalLoad + routeLoad;
      }
      vehicle := vehicle + 1;
    }
    totalDistance := distanceSum as real / CostMultiplier as real;
  }

  /** `print_twvrp_solution`: one full vertex list per used vehicle, in vehicle order,
      and the time of all routes divided by the distance multiplier. */
  method PrintTwvrpSolution(a: Assignment, nodeOf: int -> int, timeMatrix: Matrix, n: nat)
    returns (visits: seq<seq<int>>, totalTime: real)
    requires WellFormed(a) && IsSquare(timeMatrix, n) && NodesWithin(a, nodeOf, n)
    ensures visits == UsedRoutes(a, nodeOf, |a.routes|)
    ensures totalTime * CostMultiplier as real == UsedTime(a, nodeOf, timeMatrix, n, |a.routes|) as real
  {
    var timeSum := 0;
    visits := [];
    var vehicle := 0;
    while vehicle < |a.routes|
      invariant vehicle <= |a.routes|
      invariant visits == UsedRoutes(a, nodeOf, vehicle)
      invariant timeSum == UsedTime(a, nodeOf, timeMatrix, n, vehicle)
    {
      if a.used[vehicle] {
        var routeVisits;
        routeVisits, timeSum := WalkTwvrpRoute(a.routes[vehicle], nodeOf, timeMatrix, n, timeSum);
        visits := visits + [routeVisits];
      }
      vehicle := vehicle + 1;
    }
    totalTime := timeSum as real / CostMultiplier as real;
  }

  /** The part of `solveCvrp` around the search: an unbuildable data model fails as the
      service does, no solution gives distance -1 and no visits, and a solution gives
      its report. */
  method SolveCvrp(p: VRProblem, solution: Option<Assignment>, nodeOf: int -> int,
                   arcCost: (int, int, int) -> int)
    returns (r: Result<VRPSolution>)
    requires p.kind.Capacitated?
    requires p.demands.Some? ==> EdgesWithin(p.edges, |p.demands.value|)
    requires solution.Some? && p.demands.Some? ==>
      && WellFormed(solution.value)
      && |solution.value.routes| == NumVehicles(p.vehicles)
      && CvrpNodesWithin(solution.value, nodeOf, |p.demands.value|)
    ensures CreateDataModel(p).Err? ==> r == Err(CreateDataModel(p).error)
    ensures CreateDataModel(p).Ok? && solution.None? ==> r == Ok(VRPSolution([], -1.0))
    ensures CreateDataModel(p).Ok? && solution.Some? ==>
      && r.Ok?
      && r.value.visits == UsedInteriors(solution.value, nodeOf, |solution.value.routes|)
      && r.value.distance * CostMultiplier as real
         == UsedDistance(solution.value, nodeOf, arcCost, |solution.value.routes|) as real
  {
    var data := CreateDataModel(p);
    if data.Err? {
      return Err(data.error);
    }
    if solution.Some? {
      var distance, visits := PrintCvrpSolution(data.value.demands.value, solution.value, nodeOf, arcCost);
      r := Ok(VRPSolution(visits, distance));
    } else {
      r := Ok(VRPSolution([], -1.0));
    }
  }

  /** The vehicle-start loop can read the first depot's window: there is no vehicle
      to start, or the depot is a position of the window list. */
  predicate DepotWindowReadable(p: VRProblem)
    requires p.kind.TimeWindowed? && |p.depotIndices| > 0
  {
    NumVehicles(p.vehicles) > 0 ==> PyIndexValid(p.depotIndices[0], |p.kind.timeWindows|)
  }

  /** The part of `solveTwvrp` around the search: an empty depot list fails when the
      data model is built, and with vehicles to start, a depot that is no position of
      the window list fails when its window is read. Otherwise no solution gives no
      visits and time 0 (not -1), and a solution gives its report. */
  method SolveTwvrp(p: VRProblem, solution: Option<Assignment>, nodeOf: int -> int)
    returns (r: Result<VRPSolution>)
    requires p.kind.TimeWindowed?
    requires EdgesWithin(p.edges, |p.kind.timeWindows|)
    requires solution.Some? ==>
      && WellFormed(solution.value)
      && |solution.value.routes| == NumVehicles(p.vehicles)
      && NodesWithin(solution.value, nodeOf, |p.kind.timeWindows|)
    ensures |p.depotIndices| == 0 ==> r == Err(NoDepot)
    ensures |p.depotIndices| > 0 && !DepotWindowReadable(p) ==> r == Err(WindowIndexOutOfRange)
    ensures |p.depotIndices| > 0 && DepotWindowReadable(p) && solution.None? ==> r == Ok(VRPSolution([], 0.0))
    ensures |p.depotIndices| > 0 && DepotWindowReadable(p) && solution.Some? ==>
      && r.Ok?
      && r.value.visits == UsedRoutes(solution.value, nodeOf, |solution.value.routes|)
      && r.value.distance * CostMultiplier as real
         == UsedTime(solution.value, nodeOf, BuildMatrix(|p.kind.timeWindows|, p.edges),
                     |p.kind.timeWindows|, |solution.value.routes|) as real
  {
    var data := CreateDataModel(p);
    if data.Err? {
      return Err(data.error);
    }
    var bounds := AssignTimeWindows(p.kind.timeWindows, data.value.depot, data.value.numVehicles);
    if bounds.Err? {
      return Err(bounds.error);
    }
    if solution.Some? {
      var visits, time := PrintTwvrpSolution(solution.value, nodeOf, data.value.matrix, |p.kind.timeWindows|);
      r := Ok(VRPSolution(visits, time));
    } else {
      r := Ok(VRPSolution([], 0.0));
    }
  }

  /** The used vehicles' lists sit at consecutive positions: the list of used vehicle
      `v` is the one at position "number of used vehicles before `v`", so the lists
      come in ascending vehicle order and unused vehicles leave no entry. */
  lemma {:induction false} UsedInteriorsPositions(a: Assignment, nodeOf: int -> int, n: nat, v: nat)
    requires WellFormed(a) && n <= |a.routes| && v < n && a.used[v]
    ensures |UsedInteriors(a, nodeOf, n)| == CountUsed(a.used, n)
    ensures CountUsed(a.used, v) < CountUsed(a.used, n)
    ensures UsedInteriors(a, nodeOf, n)[CountUsed(a.used, v)] == Interior(Nodes(a.routes[v], nodeOf))
    decreases n
  {
    if v < n - 1 {
      UsedInteriorsPositions(a, nodeOf, n - 1, v);
    } else {
      UsedInteriorsLength(a, nodeOf, n - 1);
    }
  }

  lemma {:induction false} UsedInteriorsLength(a: Assignment, nodeOf: int -> int, n: nat)
    requires WellFormed(a) && n <= |a.routes|
    ensures |UsedInteriors(a, nodeOf, n)| == CountUsed(a.used, n)
    decreases n
  {
    if n > 0 {
      UsedInteriorsLength(a, nodeOf, n - 1);
    }
  }

  /** A CVRP list holds exactly the vertices strictly between its start and end depot. */
  lemma InteriorOfRoute(route: seq<int>, nodeOf: int -> int)
    requires |route| >= 2
    ensures |Interior(Nodes(route, nodeOf))| == |route| - 2
    ensures forall k :: 1 <= k < |route| - 1 ==> Interior(Nodes(route, nodeOf))[k - 1] == nodeOf(route[k])
  {
  }

  /** Every TWVRP list of used vehicle `v` begins with the vertex of its start index
      and ends with the vertex of its end index, the depot. */
  lemma {:induction false} UsedRoutesKeepDepots(a: Assignment, nodeOf: int -> int, n: nat, depot: int)
    requires WellFormed(a) && n <= |a.routes|
    requires forall v :: 0 <= v < |a.routes| ==>
      nodeOf(a.routes[v][0]) == depot && nodeOf(a.routes[v][|a.routes[v]| - 1]) == depot
    ensures forall l :: 0 <= l < |UsedRoutes(a, nodeOf, n)| ==>
      |UsedRoutes(a, nodeOf, n)[l]| >= 2
      && UsedRoutes(a, nodeOf, n)[l][0] == depot
      && UsedRoutes(a, nodeOf, n)[l][|UsedRoutes(a, nodeOf, n)[l]| - 1] == depot
    decreases n
  {
    if n > 0 {
      UsedRoutesKeepDepots(a, nodeOf, n - 1, depot);
    }
  }

  /** The charged CVRP distance has one arc per vertex but the end, so it never
      charges the start-to-first-visit arc: on the route start, visit, end it
      charges (start vertex -> end) and (visit vertex -> end) instead. */
  lemma CvrpDistanceOfOneVisit(route: seq<int>, nodeOf: int -> int, arcCost: (int, int, int) -> int, vehicle: int)
    requires |route| == 3
    ensures SkipArcSum(route, nodeOf, arcCost, vehicle, 2)
         == arcCost(nodeOf(route[0]), route[2], vehicle) + arcCost(nodeOf(route[1]), route[2], vehicle)
    ensures PathArcSum(route, arcCost, vehicle)
         == arcCost(route[0], route[1], vehicle) + arcCost(route[1], route[2], vehicle)
  {
    var front := route[..|route| - 1];
    assert front == [route[0], route[1]] && front[..|front| - 1] == [route[0]];
    assert PathArcSum(front, arcCost, vehicle) == arcCost(route[0], route[1], vehicle);
  }

  /** The charged distance and the cost of following the route differ: with start
      index 10 and end index 11 both at vertex 0, one visit at index 1, and only the
      arc from index 10 to index 1 costing anything, the route costs 7 and the
      report charges 0. */
  lemma CvrpDistanceIsNotPathCost()
    ensures var route, nodeOf, arcCost := [10, 1, 11], (x: int) => if x >= 10 then 0 else x,
              (f: int, t: int, v: int) => if f == 10 && t == 1 then 7 else 0;
      SkipArcSum(route, nodeOf, arcCost, 0, 2) == 0 && PathArcSum(route, arcCost, 0) == 7
  {
    var route, nodeOf, arcCost := [10, 1, 11], (x: int) => if x >= 10 then 0 else x,
      (f: int, t: int, v: int) => if f == 10 && t == 1 then 7 else 0;
    CvrpDistanceOfOneVisit(route, nodeOf, arcCost, 0);
  }

  /** The input costs of the edges at positions `at`, added up. */
  function EdgeCostSum(edges: seq<Edge>, at: seq<nat>): int
    requires forall k :: 0 <= k < |at| ==> at[k] < |edges|
    decreases |at|
  {
    if |at| == 0 then 0 else EdgeCostSum(edges, at[..|at| - 1]) + edges[at[|at| - 1]].cost
  }

  /** Edge `e` is the last one in list order written into cell (i, j). */
  predicate LastEdgeOf(edges: seq<Edge>, i: int, j: int, e: nat) {
    e < |edges| && Names(edges[e], i, j)
    && forall k' :: e < k' < |edges| ==> !Names(edges[k'], i, j)
  }

  /** `at[k]` is the last edge written into the cell of the k-th arc of `s`. */
  predicate LastEdgesOfArcs(edges: seq<Edge>, s: seq<int>, at: seq<nat>) {
    && |at| + 1 == |s|
    && (forall k :: 0 <= k < |at| ==> at[k] < |edges|)
    && (forall k :: 0 <= k < |at| ==> LastEdgeOf(edges, s[k], s[k + 1], at[k]))
  }

  /** The time matrix holds the edge times scaled by the multiplier, so when every
      arc of a vertex sequence is given by an edge, its matrix time is the multiplier
      times the input times of those edges: the division in the TWVRP report gives
      back the input unit. */
  lemma {:induction false} PathCostOfEdges(n: nat, edges: seq<Edge>, s: seq<int>, at: seq<nat>)
    requires EdgesWithin(edges, n) && forall k :: 0 <= k < |s| ==> 0 <= s[k] < n
    requires LastEdgesOfArcs(edges, s, at)
    ensures PathCost(BuildMatrix(n, edges), s) == CostMultiplier * EdgeCostSum(edges, at)
    decreases |s|
  {
    if |s| >= 2 {
      var s', at' := s[..|s| - 1], at[..|at| - 1];
      PathCostOfEdges(n, edges, s', at');
      var k := |at| - 1;
      assert LastEdgeOf(edges, s[k], s[k + 1], at[k]);
      NamedCell(n, edges, s[k], s[k + 1], at[k]);
    }
  }
}
