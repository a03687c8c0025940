/**
 The PyVRP back end (backend/services/pyvrp.py): how a problem becomes a PyVRP
 `Model` (vehicle types, depots, clients, one `add_edge` call per ordered pair of
 matrix positions), how the solver's result is reported, and the route walk of
 `print_solution`.

 The model is recorded as the lists the library keeps. The library lists the
 depots before the clients whatever the order they were added in, and
 `m.locations[i]` reads position i of that list; an edge is recorded by the two
 positions it joins.
 */
module PyvrpModel {
  import opened Models
  import opened CostMatrix
  import opened Arithmetic

  datatype Location =
    | Depot(coord: Coordinates, tw: Option<TimeWindow>)
    | Client(coord: Coordinates, delivery: Option<int>, tw: Option<TimeWindow>)

  /** A vehicle type as added: its count and whichever of capacity, maximum
      duration and time window the call passes. */
  datatype VehicleType = VehicleType(numAvailable: int, capacity: Option<int>,
                                     maxDuration: Option<int>, tw: Option<TimeWindow>)

  /** One `add_edge` call: the positions of its two locations, and its distance. */
  datatype ModelEdge = ModelEdge(frm: nat, to: nat, distance: int)

  datatype Model = Model(vehicleTypes: seq<VehicleType>, depots: seq<Location>,
                         clients: seq<Location>, edges: seq<ModelEdge>)

  /** The model's location list: depots, then clients. */
  function Locations(m: Model): seq<Location> {
    m.depots + m.clients
  }

  /** The indices below n that are not listed as depots, ascending: the indices the
      client loops add, in the order they add them. */
  function NonDepotIndices(n: nat, depots: seq<int>): (r: seq<nat>)
    ensures forall k :: 0 <= k < |r| ==> r[k] < n && r[k] !in depots
    ensures forall i :: 0 <= i < n && i !in depots ==> i in r
    ensures forall k, l :: 0 <= k < l < |r| ==> r[k] < r[l]
    decreases n
  {
    if n == 0 then []
    else NonDepotIndices(n - 1, depots) + (if n - 1 in depots then [] else [n - 1])
  }

  /** The CVRP vehicle loop: one type per vehicles entry, in order, with its count and capacity. */
  function CvrpVehicleTypes(vehicles: seq<VehiclesType>): (r: seq<VehicleType>)
    ensures |r| == |vehicles|
    ensures forall t :: 0 <= t < |r| ==>
      r[t] == VehicleType(vehicles[t].number, Some(vehicles[t].capacity), None, None)
    decreases |vehicles|
  {
    if |vehicles| == 0 then []
    else
      var vt := vehicles[|vehicles| - 1];
      CvrpVehicleTypes(vehicles[..|vehicles| - 1]) + [VehicleType(vt.number, Some(vt.capacity), None, None)]
  }

  /** The TWVRP vehicle loop: the capacity becomes the maximum duration, and every
      type gets the time window of the first depot. */
  function TwvrpVehicleTypes(vehicles: seq<VehiclesType>, depotWindow: TimeWindow): (r: seq<VehicleType>)
    ensures |r| == |vehicles|
    ensures forall t :: 0 <= t < |r| ==>
      r[t] == VehicleType(vehicles[t].number, None, Some(vehicles[t].capacity), Some(depotWindow))
    decreases |vehicles|
  {
    if |vehicles| == 0 then []
    else
      var vt := vehicles[|vehicles| - 1];
      TwvrpVehicleTypes(vehicles[..|vehicles| - 1], depotWindow)
      + [VehicleType(vt.number, None, Some(vt.capacity), Some(depotWindow))]
  }

  /** The depot loop: one depot per listed index, in list order, at that vertex,
      with that index's time window when windows are given. */
  function DepotLocations(vertices: seq<Coordinates>, depots: seq<int>, windows: Option<seq<TimeWindow>>)
    : (r: seq<Location>)
    requires forall k :: 0 <= k < |depots| ==> 0 <= depots[k] < |vertices|
    requires windows.Some? ==> forall k :: 0 <= k < |depots| ==> depots[k] < |windows.value|
    ensures |r| == |depots|
    ensures forall k :: 0 <= k < |depots| ==>
      r[k] == Depot(vertices[depots[k]], if windows.Some? then Some(windows.value[depots[k]]) else None)
    decreases |depots|
  {
    if |depots| == 0 then []
    else
      var d := depots[|depots| - 1];
      DepotLocations(vertices, depots[..|depots| - 1], windows)
      + [Depot(vertices[d], if windows.Some? then Some(windows.value[d]) else None)]
  }

  /** A client loop over `indices`: one client per index, in order, at that vertex,
      with its delivery and its time window when those are given. */
  function ClientLocations(indices: seq<nat>, vertices: seq<Coordinates>,
                           deliveries: Option<seq<int>>, windows: Option<seq<TimeWindow>>)
    : (r: seq<Location>)
    requires forall k :: 0 <= k < |indices| ==> indices[k] < |vertices|
    requires deliveries.Some? ==> forall k :: 0 <= k < |indices| ==> indices[k] < |deliveries.value|
    requires windows.Some? ==> forall k :: 0 <= k < |indices| ==> indices[k] < |windows.value|
    ensures |r| == |indices|
    ensures forall k :: 0 <= k < |indices| ==>
      r[k] == Client(vertices[indices[k]],
                     if deliveries.Some? then Some(deliveries.value[indices[k]]) else None,
                     if windows.Some? then Some(windows.value[indices[k]]) else None)
    decreases |indices|
  {
    if |indices| == 0 then []
    else
      var i := indices[|indices| - 1];
      ClientLocations(indices[..|indices| - 1], vertices, deliveries, windows)
      + [Client(vertices[i],
                if deliveries.Some? then Some(deliveries.value[i]) else None,
                if windows.Some? then Some(windows.value[i]) else None)]
  }

  /** The edge calls of an n-by-n matrix, one per ordered pair of positions
      (the diagonal included), row by row. */
  predicate RowMajorEdges(edges: seq<ModelEdge>, m: Matrix, n: nat)
    requires IsSquare(m, n)
  {
    && |edges| == n * n
    && forall i, j :: 0 <= i < n && 0 <= j < n ==> CallAt(edges, m, n, i, j)
  }

  /** The call for pair (i, j) sits at position i * n + j and carries that cell's value. */
  predicate CallAt(edges: seq<ModelEdge>, m: Matrix, n: nat, i: nat, j: nat)
    requires IsSquare(m, n) && i < n && j < n
  {
    i * n + j < |edges| && edges[i * n + j] == ModelEdge(i, j, m[i][j])
  }

  /** The edge calls of row i. */
  function RowEdges(m: Matrix, n: nat, i: nat): (r: seq<ModelEdge>)
    requires IsSquare(m, n) && i < n
  {
    seq(n, j requires 0 <= j < n => ModelEdge(i, j, m[i][j]))
  }

  /** The edge calls of rows 0 .. i-1, row after row. */
  function RowsEdges(m: Matrix, n: nat, i: nat): seq<ModelEdge>
    requires IsSquare(m, n) && i <= n
    decreases i
  {
    if i == 0 then [] else RowsEdges(m, n, i - 1) + RowEdges(m, n, i - 1)
  }

  lemma {:induction false} RowsEdgesLength(m: Matrix, n: nat, i: nat)
    requires IsSquare(m, n) && i <= n
    ensures |RowsEdges(m, n, i)| == i * n
    decreases i
  {
    if i > 0 {
      RowsEdgesLength(m, n, i - 1);
      assert i * n == (i - 1) * n + n;
    }
  }

  /** Pair (i', j') of the first i rows sits at position i' * n + j'. */
  lemma {:induction false} RowsEdgesAt(m: Matrix, n: nat, i: nat, i': nat, j': nat)
    requires IsSquare(m, n) && i <= n && i' < i && j' < n
    ensures CallAt(RowsEdges(m, n, i), m, n, i', j')
    decreases i
  {
    RowsEdgesLength(m, n, i - 1);
    var prev := RowsEdges(m, n, i - 1);
    assert RowsEdges(m, n, i) == prev + RowEdges(m, n, i - 1);
    if i' < i - 1 {
      RowMajorBefore(n, i', j', i - 1);
      RowsEdgesAt(m, n, i - 1, i', j');
    } else {
      assert i' * n + j' == |prev| + j';
    }
  }

  /** All n rows of calls are the row-major calls of the matrix. */
  lemma RowsEdgesRowMajor(m: Matrix, n: nat)
    requires IsSquare(m, n)
    ensures RowMajorEdges(RowsEdges(m, n, n), m, n)
  {
    RowsEdgesLength(m, n, n);
    forall i, j | 0 <= i < n && 0 <= j < n
      ensures CallAt(RowsEdges(m, n, n), m, n, i, j)
    {
      RowsEdgesAt(m, n, n, i, j);
    }
  }

  /** The inner `add_edge` loop: the calls of row i, appended to those made so far. */
  method AddRowEdges(m: Matrix, n: nat, i: nat, edges: seq<ModelEdge>) returns (edges': seq<ModelEdge>)
    requires IsSquare(m, n) && i < n
    ensures edges' == edges + RowEdges(m, n, i)
  {
    edges' := edges;
    var j := 0;
    while j < n
      invariant j <= n && edges' == edges + RowEdges(m, n, i)[..j]
    {
      assert RowEdges(m, n, i)[..j + 1] == RowEdges(m, n, i)[..j] + [ModelEdge(i, j, m[i][j])];
      edges' := edges' + [ModelEdge(i, j, m[i][j])];
      j := j + 1;
    }
    assert RowEdges(m, n, i)[..n] == RowEdges(m, n, i);
  }

  /** The nested `add_edge` loop: every ordered pair of positions below n, row-major,
      with the matrix value of that pair. */
  method AddAllEdges(m: Matrix, n: nat) returns (edges: seq<ModelEdge>)
    requires IsSquare(m, n)
    ensures RowMajorEdges(edges, m, n)
  {
    edges := [];
    var i := 0;
    while i < n
      invariant i <= n && edges == RowsEdges(m, n, i)
    {
      edges := AddRowEdges(m, n, i, edges);
      i := i + 1;
    }
    RowsEdgesRowMajor(m, n);
  }

  /** Writes the edge calls into a model that has none yet, failing as
      `m.locations[i]` does when the matrix has more positions than the model has
      locations. */
  method AddModelEdges(model: Model, matrix: Matrix, n: nat) returns (r: Result<Model>)
    requires IsSquare(matrix, n) && model.edges == []
    ensures n > |Locations(model)| ==> r == Err(LocationIndexOutOfRange)
    ensures n <= |Locations(model)| ==>
      && r.Ok?
      && r.value == model.(edges := r.value.edges)
      && RowMajorEdges(r.value.edges, matrix, n)
  {
    if n > |Locations(model)| {
      return Err(LocationIndexOutOfRange);
    }
    var added := AddAllEdges(matrix, n);
    r := Ok(model.(edges := added));
  }

  /** Every index a CVRP model reads is in range: the listed depots and the
      non-depot demand indices are vertices, and the edges join matrix positions. */
  predicate CvrpIndicesValid(p: VRProblem) {
    && (forall k :: 0 <= k < |p.depotIndices| ==> 0 <= p.depotIndices[k] < |p.vertices|)
    && (p.demands.Some? ==>
          && (forall i :: 0 <= i < |p.demands.value| && i !in p.depotIndices ==> i < |p.vertices|)
          && EdgesWithin(p.edges, |p.demands.value|))
  }

  /** The CVRP clients: every non-depot demand index, ascending, with its delivery. */
  function CvrpClients(p: VRProblem): (r: seq<Location>)
    requires CvrpIndicesValid(p) && p.demands.Some?
  {
    ClientLocations(NonDepotIndices(|p.demands.value|, p.depotIndices), p.vertices, p.demands, None)
  }

  /** The model `solveCvrp` hands to the solver. */
  method BuildCvrpModel(p: VRProblem) returns (r: Result<Model>)
    requires CvrpIndicesValid(p)
    ensures p.demands.None? ==> r == Err(MissingDemands)
    ensures p.demands.Some? ==>
      && r.Ok?
      && r.value.vehicleTypes == CvrpVehicleTypes(p.vehicles)
      && r.value.depots == DepotLocations(p.vertices, p.depotIndices, None)
      && r.value.clients == CvrpClients(p)
      && RowMajorEdges(r.value.edges, BuildMatrix(|p.demands.value|, p.edges), |p.demands.value|)
  {
    var types := CvrpVehicleTypes(p.vehicles);
    var depots := DepotLocations(p.vertices, p.depotIndices, None);
    if p.demands.None? {
      return Err(MissingDemands);
    }
    var n := |p.demands.value|;
    var clients := CvrpClients(p);
    LocationsCoverPositions(n, p.depotIndices);
    var model := Model(types, depots, clients, []);
    r := AddModelEdges(model, BuildMatrix(n, p.edges), n);
  }

  /** Every vertex and matrix index a TWVRP model reads is in range. */
  predicate TwvrpIndicesValid(p: VRProblem)
    requires p.kind.TimeWindowed?
  {
    var tw := p.kind.timeWindows;
    && (forall k :: 0 <= k < |p.depotIndices| ==> 0 <= p.depotIndices[k] < |p.vertices|)
    && (p.demands.Some? ==>
          forall i :: 0 <= i < |p.demands.value| && i !in p.depotIndices ==> i < |p.vertices|)
    && EdgesWithin(p.edges, |tw|)
  }

  /** The window list has an entry for every listed depot and every non-depot
      vertex, the windows the vehicle, depot and client loops read. */
  predicate TwvrpWindowsCover(p: VRProblem)
    requires p.kind.TimeWindowed?
  {
    var tw := p.kind.timeWindows;
    && (forall k :: 0 <= k < |p.depotIndices| ==> p.depotIndices[k] < |tw|)
    && (forall i :: 0 <= i < |p.vertices| && i !in p.depotIndices ==> i < |tw|)
  }

  /** The TWVRP clients: when demands are given, every non-depot demand index with
      its delivery and no window; then every non-depot vertex with its window. */
  function TwvrpClients(p: VRProblem): (r: seq<Location>)
    requires p.kind.TimeWindowed? && TwvrpIndicesValid(p) && TwvrpWindowsCover(p)
  {
    (if p.demands.Some?
     then ClientLocations(NonDepotIndices(|p.demands.value|, p.depotIndices), p.vertices, p.demands, None)
     else [])
    + ClientLocations(NonDepotIndices(|p.vertices|, p.depotIndices), p.vertices, None, Some(p.kind.timeWindows))
  }

  /** Vehicles to add with no depot to take their window from: the first read of
      `solveTwvrp` that fails. */
  predicate TwvrpNoDepot(p: VRProblem) {
    |p.vehicles| > 0 && |p.depotIndices| == 0
  }

  /** The model `solveTwvrp` hands to the solver. It fails on the first read that
      fails: the first depot of vehicles without one, then a window past the end of
      the window list, then a location past the end of the model's location list. */
  method BuildTwvrpModel(p: VRProblem) returns (r: Result<Model>)
    requires p.kind.TimeWindowed? && TwvrpIndicesValid(p)
    ensures TwvrpNoDepot(p) ==> r == Err(NoDepot)
    ensures !TwvrpNoDepot(p) && !TwvrpWindowsCover(p) ==> r == Err(WindowIndexOutOfRange)
    ensures !TwvrpNoDepot(p) && TwvrpWindowsCover(p) ==>
      (r.Ok? <==> |p.kind.timeWindows| <= |p.depotIndices| + |TwvrpClients(p)|)
    ensures !TwvrpNoDepot(p) && TwvrpWindowsCover(p) && r.Err? ==> r.error == LocationIndexOutOfRange
    ensures r.Ok? ==>
      && TwvrpWindowsCover(p)
      && r.value.vehicleTypes == (if |p.vehicles| == 0 then []
                                  else TwvrpVehicleTypes(p.vehicles, p.kind.timeWindows[p.depotIndices[0]]))
      && r.value.depots == DepotLocations(p.vertices, p.depotIndices, Some(p.kind.timeWindows))
      && r.value.clients == TwvrpClients(p)
      && RowMajorEdges(r.value.edges, BuildMatrix(|p.kind.timeWindows|, p.edges), |p.kind.timeWindows|)
  {
    var tw := p.kind.timeWindows;
    if TwvrpNoDepot(p) {
      return Err(NoDepot);
    }
    // Every failing window read gives the same error, so the reads are checked at once.
    if !TwvrpWindowsCover(p) {
      return Err(WindowIndexOutOfRange);
    }
    var types := [];
    if |p.vehicles| > 0 {
      types := TwvrpVehicleTypes(p.vehicles, tw[p.depotIndices[0]]);
    }
    var depots := DepotLocations(p.vertices, p.depotIndices, Some(tw));
    var clients := TwvrpClients(p);
    var model := Model(types, depots, clients, []);
    var n := |tw|;
    r := AddModelEdges(model, BuildMatrix(n, p.edges), n);
  }

  /** The indices below n listed as depots. */
  function DepotsBelow(n: nat, depots: seq<int>): set<int> {
    set i | 0 <= i < n && i in depots
  }

  lemma {:induction false} NonDepotCount(n: nat, depots: seq<int>)
    ensures |NonDepotIndices(n, depots)| + |DepotsBelow(n, depots)| == n
    decreases n
  {
    if n > 0 {
      NonDepotCount(n - 1, depots);
      NonDepotIndicesStep(n, depots);
      DepotsBelowStep(n, depots);
    } else {
      assert DepotsBelow(n, depots) == {};
    }
  }

  lemma NonDepotIndicesStep(n: nat, depots: seq<int>)
    requires n > 0
    ensures |NonDepotIndices(n, depots)| == |NonDepotIndices(n - 1, depots)| + if n - 1 in depots then 0 else 1
  {
  }

  lemma DepotsBelowStep(n: nat, depots: seq<int>)
    requires n > 0
    ensures |DepotsBelow(n, depots)| == |DepotsBelow(n - 1, depots)| + if n - 1 in depots then 1 else 0
  {
    if n - 1 in depots {
      assert DepotsBelow(n, depots) == DepotsBelow(n - 1, depots) + {n - 1};
    } else {
      assert DepotsBelow(n, depots) == DepotsBelow(n - 1, depots);
    }
  }

  lemma {:induction false} ElementsCount(s: seq<int>)
    ensures |set x | x in s| <= |s|
    decreases |s|
  {
    if |s| > 0 {
      var init := s[..|s| - 1];
      ElementsCount(init);
      assert (set x | x in s) == (set x | x in init) + {s[|s| - 1]};
    } else {
      assert (set x | x in s) == {};
    }
  }

  lemma SubsetCount(a: set<int>, b: set<int>)
    requires a <= b
    ensures |a| <= |b|
  {
    assert b == a + (b - a);
  }

  /** Depots and non-depot indices together are at least as many as the matrix
      positions, so the CVRP edge loop never reads past the location list. */
  lemma LocationsCoverPositions(n: nat, depots: seq<int>)
    ensures n <= |depots| + |NonDepotIndices(n, depots)|
  {
    NonDepotCount(n, depots);
    ElementsCount(depots);
    SubsetCount(DepotsBelow(n, depots), set x | x in depots);
  }

  /** Below d, every index is one of the first d depots. */
  lemma {:induction false} NoNonDepotBelowLeadingDepots(n: nat, d: nat)
    requires n <= d
    ensures NonDepotIndices(n, Range(d)) == []
    decreases n
  {
    if n > 0 {
      NoNonDepotBelowLeadingDepots(n - 1, d);
      assert Range(d)[n - 1] == n - 1;
    }
  }

  /** When the depots are the first d vertices, the non-depot indices are the rest. */
  lemma {:induction false} NonDepotOfLeadingDepots(n: nat, d: nat)
    requires d <= n
    ensures NonDepotIndices(n, Range(d)) == seq(n - d, k => d + k)
    decreases n
  {
    if n > d {
      NonDepotOfLeadingDepots(n - 1, d);
      assert n - 1 !in Range(d);
      assert seq(n - 1 - d, k => d + k) + [n - 1] == seq(n - d, k => d + k);
    } else {
      NoNonDepotBelowLeadingDepots(n, d);
    }
  }

  /** With the depots listed as the first d vertices, model location i of a CVRP
      stands at vertex i, so matrix position i and vertex i agree. */
  lemma CvrpLocationsFollowVertices(p: VRProblem, d: nat, i: nat)
    requires CvrpIndicesValid(p) && p.demands.Some? && p.depotIndices == Range(d)
    requires d <= |p.demands.value| && i < |p.demands.value|
    ensures i < |DepotLocations(p.vertices, p.depotIndices, None) + CvrpClients(p)|
    ensures (DepotLocations(p.vertices, p.depotIndices, None) + CvrpClients(p))[i].coord == p.vertices[i]
  {
    var n := |p.demands.value|;
    NonDepotOfLeadingDepots(n, d);
    var depots := DepotLocations(p.vertices, p.depotIndices, None);
    var clients := CvrpClients(p);
    var idx := NonDepotIndices(n, p.depotIndices);
    assert |idx| == n - d && |depots| == d;
    if i < d {
      assert (depots + clients)[i] == depots[i];
      assert p.depotIndices[i] == i;
    } else {
      assert (depots + clients)[i] == clients[i - d];
      assert idx[i - d] == i;
    }
  }

  /** With demands given, every non-depot vertex is added twice: once with its
      delivery and no window, once more with its window and no delivery, the
      delivery copies first. */
  lemma TwvrpClientsDoubled(p: VRProblem)
    requires p.kind.TimeWindowed? && TwvrpIndicesValid(p) && TwvrpWindowsCover(p)
    requires p.demands.Some? && |p.demands.value| == |p.vertices|
    ensures var idx := NonDepotIndices(|p.vertices|, p.depotIndices);
      && |TwvrpClients(p)| == 2 * |idx|
      && (forall k :: 0 <= k < |idx| ==>
            TwvrpClients(p)[k] == Client(p.vertices[idx[k]], Some(p.demands.value[idx[k]]), None)
            && TwvrpClients(p)[|idx| + k] == Client(p.vertices[idx[k]], None, Some(p.kind.timeWindows[idx[k]])))
  {
  }

  /** With the depots listed as the first d vertices and demands for every vertex,
      the matrix positions after the depots are the delivery copies, which carry
      no time window: the windowed clients lie past the matrix. */
  lemma TwvrpMatrixReachesDeliveryCopies(p: VRProblem, d: nat, i: nat)
    requires p.kind.TimeWindowed? && TwvrpIndicesValid(p) && TwvrpWindowsCover(p)
    requires p.demands.Some? && |p.demands.value| == |p.vertices| == |p.kind.timeWindows|
    requires p.depotIndices == Range(d) && d <= i < |p.kind.timeWindows|
    ensures i < |DepotLocations(p.vertices, p.depotIndices, Some(p.kind.timeWindows)) + TwvrpClients(p)|
    ensures var loc := (DepotLocations(p.vertices, p.depotIndices, Some(p.kind.timeWindows)) + TwvrpClients(p))[i];
      loc.Client? && loc.tw.None? && loc.coord == p.vertices[i]
  {
    var n := |p.vertices|;
    NonDepotOfLeadingDepots(n, d);
    TwvrpClientsDoubled(p);
    var depots := DepotLocations(p.vertices, p.depotIndices, Some(p.kind.timeWindows));
    var clients := TwvrpClients(p);
    var idx := NonDepotIndices(n, p.depotIndices);
    assert |idx| == n - d && |depots| == d;
    assert (depots + clients)[i] == clients[i - d];
    assert idx[i - d] == i;
  }

  /** What the solver hands back: the client lists of its routes and its cost. */
  datatype SolveResult = SolveResult(routes: seq<seq<int>>, cost: int)

  /** Both solve methods report the routes as given and the cost divided by the multiplier. */
  function ReportSolution(res: SolveResult): (s: VRPSolution)
    ensures s.visits == res.routes
    ensures s.distance * CostMultiplier as real == res.cost as real
  {
    VRPSolution(res.routes, res.cost as real / CostMultiplier as real)
  }

  /** The consecutive pairs of a sequence. */
  function Pairs(s: seq<int>): (r: seq<(int, int)>)
    ensures |s| > 0 ==> |r| == |s| - 1
    ensures |s| == 0 ==> r == []
    ensures forall k :: 0 <= k < |r| ==> r[k] == (s[k], s[k + 1])
  {
    if |s| == 0 then [] else seq(|s| - 1, k requires 0 <= k < |s| - 1 => (s[k], s[k + 1]))
  }

  /** The arcs of one route: from the depot at 0 through its clients and back to 0. */
  function RouteArcs(visit: seq<int>): seq<(int, int)> {
    Pairs([0] + visit + [0])
  }

  /** The arcs of all routes, route after route. */
  function AllArcs(visits: seq<seq<int>>): seq<(int, int)>
    decreases |visits|
  {
    if |visits| == 0 then [] else AllArcs(visits[..|visits| - 1]) + RouteArcs(visits[|visits| - 1])
  }

  /** One printed line of `print_solution`: an arc and its unscaled length. */
  datatype Leg = Leg(frm: int, to: int, length: real)

  /** The solver's routes hold location indices, which are never negative. */
  predicate NonNegativeVisits(visits: seq<seq<int>>) {
    forall r, k :: 0 <= r < |visits| && 0 <= k < |visits[r]| ==> visits[r][k] >= 0
  }

  /** Every client of a route is below n. */
  predicate Below(visit: seq<int>, n: nat) {
    forall k :: 0 <= k < |visit| ==> visit[k] < n
  }

  /** Every location the walk of `print_solution` looks up is a matrix position: the
      clients of every route, and the depot 0 that each route returns to. */
  predicate WalkWithin(visits: seq<seq<int>>, n: nat) {
    && (|visits| > 0 ==> n > 0)
    && forall r :: 0 <= r < |visits| ==> Below(visits[r], n)
  }

  /** The arcs a list of printed legs shows. */
  function LegArcs(legs: seq<Leg>): (r: seq<(int, int)>)
    ensures |r| == |legs| && forall k :: 0 <= k < |legs| ==> r[k] == (legs[k].frm, legs[k].to)
  {
    seq(|legs|, k requires 0 <= k < |legs| => (legs[k].frm, legs[k].to))
  }

  /** The inner loop of `print_solution`: one route, walked from the position `p0`
      the walk stands at, through the route's clients, back to 0, where the walk
      then stands. */
  method PrintRoute(visit: seq<int>, edges: Matrix, n: nat, p0: int) returns (legs: seq<Leg>, p: int)
    requires IsSquare(edges, n) && 0 <= p0 < n
    requires forall k :: 0 <= k < |visit| ==> 0 <= visit[k] < n
    ensures p == 0
    ensures LegArcs(legs) == Pairs([p0] + visit + [0])
    ensures forall k :: 0 <= k < |legs| ==> LegPrinted(legs[k], edges, n)
  {
    var walk := visit + [0];
    ghost var route := [p0] + walk;
    legs := [];
    p := p0;
    var j := 0;
    while j < |walk|
      invariant j <= |walk| && p == route[j] && 0 <= p < n && |legs| == j
      invariant forall k :: 0 <= k < j ==> legs[k].frm == route[k] && legs[k].to == route[k + 1]
      invariant forall k :: 0 <= k < j ==> LegPrinted(legs[k], edges, n)
    {
      var v := walk[j];
      legs := legs + [Leg(p, v, edges[p][v] as real / CostMultiplier as real)];
      p := v;
      j := j + 1;
    }
    assert [p0] + visit + [0] == route;
    assert forall k :: 0 <= k < |legs| ==> LegArcs(legs)[k] == Pairs([p0] + visit + [0])[k];
  }

  /** `print_solution`: the walk starts at 0 and carries its position from route to
      route. It fails on the first location that is no matrix position. Otherwise,
      since each route leaves the walk at 0, every route is walked from 0 through
      its clients back to 0, and every arc is printed with its matrix length divided
      by the multiplier. */
  method PrintSolution(visits: seq<seq<int>>, edges: Matrix, n: nat) returns (r: Result<seq<Leg>>)
    requires IsSquare(edges, n) && NonNegativeVisits(visits)
    ensures r.Err? <==> !WalkWithin(visits, n)
    ensures r.Err? ==> r.error == MatrixIndexOutOfRange
    ensures r.Ok? ==> LegArcs(r.value) == AllArcs(visits)
    ensures r.Ok? ==> forall k :: 0 <= k < |r.value| ==> LegPrinted(r.value[k], edges, n)
  {
    var legs := [];
    var p := 0;
    var route := 0;
    while route < |visits|
      invariant route <= |visits| && p == 0
      invariant WalkWithin(visits[..route], n)
      invariant LegArcs(legs) == AllArcs(visits[..route])
      invariant forall k :: 0 <= k < |legs| ==> LegPrinted(legs[k], edges, n)
    {
      if n == 0 || !Below(visits[route], n) {
        return Err(MatrixIndexOutOfRange);
      }
      var routeLegs;
      routeLegs, p := PrintRoute(visits[route], edges, n, p);
      PrintStep(visits, route, n, legs, routeLegs);
      legs := legs + routeLegs;
      route := route + 1;
    }
    assert visits[..route] == visits;
    r := Ok(legs);
  }

  /** One more route of `print_solution`: its clients are matrix positions, and its
      legs continue the arcs of the routes before it. */
  lemma PrintStep(visits: seq<seq<int>>, route: nat, n: nat, legs: seq<Leg>, routeLegs: seq<Leg>)
    requires route < |visits| && n > 0 && Below(visits[route], n)
    requires WalkWithin(visits[..route], n)
    requires LegArcs(legs) == AllArcs(visits[..route])
    requires LegArcs(routeLegs) == RouteArcs(visits[route])
    ensures WalkWithin(visits[..route + 1], n)
    ensures LegArcs(legs + routeLegs) == AllArcs(visits[..route + 1])
  {
    var prefix := visits[..route + 1];
    assert prefix[..route] == visits[..route];
    assert prefix[route] == visits[route];
    assert LegArcs(legs + routeLegs) == LegArcs(legs) + LegArcs(routeLegs);
    forall r' | 0 <= r' < route + 1
      ensures Below(prefix[r'], n)
    {
      if r' < route {
        assert prefix[r'] == visits[..route][r'];
      }
    }
  }

  /** A printed leg joins two matrix positions and shows their matrix length unscaled. */
  predicate LegPrinted(leg: Leg, edges: Matrix, n: nat)
    requires IsSquare(edges, n)
  {
    && 0 <= leg.frm < n && 0 <= leg.to < n
    && leg.length * CostMultiplier as real == edges[leg.frm][leg.to] as real
  }

  /** `solveCvrp` around the search: a model that cannot be built fails as it is
      built, and `print_solution` fails on a route through a location past the
      matrix. Otherwise the routes are reported as the solver gives them, with its
      cost divided by the multiplier. */
  method SolveCvrp(p: VRProblem, res: SolveResult) returns (r: Result<VRPSolution>)
    requires CvrpIndicesValid(p) && NonNegativeVisits(res.routes)
    ensures p.demands.None? ==> r == Err(MissingDemands)
    ensures p.demands.Some? && !WalkWithin(res.routes, |p.demands.value|) ==> r == Err(MatrixIndexOutOfRange)
    ensures p.demands.Some? && WalkWithin(res.routes, |p.demands.value|) ==>
      && r.Ok?
      && r.value.visits == res.routes
      && r.value.distance * CostMultiplier as real == res.cost as real
  {
    var model := BuildCvrpModel(p);
    if model.Err? {
      return Err(model.error);
    }
    var n := |p.demands.value|;
    var printed := PrintSolution(res.routes, BuildMatrix(n, p.edges), n);
    if printed.Err? {
      return Err(printed.error);
    }
    r := Ok(ReportSolution(res));
  }

  /** The TWVRP model has a location for every matrix position. */
  predicate TwvrpLocationsCover(p: VRProblem)
    requires p.kind.TimeWindowed? && TwvrpIndicesValid(p) && TwvrpWindowsCover(p)
  {
    |p.kind.timeWindows| <= |p.depotIndices| + |TwvrpClients(p)|
  }

  /** `solveTwvrp` around the search: vehicles without a depot fail, then a window
      list too short for the depots and clients, then a matrix with more positions
      than the model has locations. Otherwise the routes are reported as the solver
      gives them, with its cost divided by the multiplier. */
  method SolveTwvrp(p: VRProblem, res: SolveResult) returns (r: Result<VRPSolution>)
    requires p.kind.TimeWindowed? && TwvrpIndicesValid(p)
    ensures TwvrpNoDepot(p) ==> r == Err(NoDepot)
    ensures !TwvrpNoDepot(p) && !TwvrpWindowsCover(p) ==> r == Err(WindowIndexOutOfRange)
    ensures !TwvrpNoDepot(p) && TwvrpWindowsCover(p) && !TwvrpLocationsCover(p) ==>
      r == Err(LocationIndexOutOfRange)
    ensures !TwvrpNoDepot(p) && TwvrpWindowsCover(p) && TwvrpLocationsCover(p) ==>
      && r.Ok?
      && r.value.visits == res.routes
      && r.value.distance * CostMultiplier as real == res.cost as real
  {
    var model := BuildTwvrpModel(p);
    if model.Err? {
      return Err(model.error);
    }
    r := Ok(ReportSolution(res));
  }
}
