# VRP simulation tool: the deterministic core of its two solver back ends

The VRP simulation tool is a small web service. It accepts a capacitated (CVRP) or
time-windowed (TWVRP) vehicle routing problem, hands it to one of two routing
libraries (OR-Tools or PyVRP), and reports one visit list per vehicle and a total
distance or time. It also converts the benchmark instances that ship with it into
requests.

The search itself belongs to the libraries. This project models what the service
does itself, before and after the search:

- `Models` is the request and response records: a `VRProblem` with its vehicles,
  vertices, edges, depot indices, optional demands and, for a TWVRP, time windows.
  It also holds the errors the services run into.
- `CostMatrix` is the dense cost matrix both back ends build from the sparse edge list.
  Cells start at the sentinel 9999999999 and the diagonal is set to 0. Then each
  edge's cost times 100 is written, in list order, so the last edge wins.
- `OrToolsData` covers what happens before the OR-Tools search: the data model (matrix,
  fleet expanded into one capacity per vehicle, the first listed depot), and the
  time-window ranges put on locations and vehicle starts.
- `OrToolsSolution` covers what happens after the OR-Tools search: the route walks of the
  two report functions, and the result and failure branches of the two solve methods.
  The library's solution is an explicit list of routing indices per vehicle plus
  used flags. `IndexToNode` and `GetArcCostForVehicle` are function parameters.
- `PyvrpModel` covers the PyVRP side:
  - how a problem becomes a PyVRP model: vehicle types, depots, then clients, and one
    `add_edge` call per ordered pair of matrix positions;
  - the arc walk of `print_solution`, with its failure on a location past the matrix;
  - the two solve methods around the search, which report the solver's routes and its
    cost divided by 100.
- `BenchmarkExamples` covers the benchmark instances: the `.vrp` name filter, the `.sol`
  path, and the conversion of a parsed instance into a CVRP request with a full-mesh
  edge list.
- `Arithmetic` holds the position list 0..n-1, which the depot lists use, and two facts
  about row-major positions that the PyVRP edge loop needs.

The source's quirks are kept and stated as lemmas, not corrected:
- the CVRP report charges skip-one arcs;
- time is divided by the distance multiplier;
- the PyVRP TWVRP adds clients twice when demands are given.

## Model

| member | source | states |
|---|---|---|
| CostMatrix.ZeroDiagonalCells | backend/services/ortools.py:24-27 | after the diagonal loop over the first k rows, cell (i,i) with i < k is 0 and every other cell is still the sentinel |
| CostMatrix.UnnamedCellUnchanged | backend/services/ortools.py:28-29 | the edge loop leaves every cell no edge names exactly as it was |
| CostMatrix.NamedCellLastWins | backend/services/ortools.py:28-29 | a cell named by edge k and by no later edge ends the edge loop holding edge k's cost times 100, whatever it held before |
| CostMatrix.UnnamedCell | backend/services/ortools.py:17-29 | in the built matrix, a pair no edge names is 0 on the diagonal and the sentinel 9999999999 elsewhere |
| CostMatrix.NamedCell | backend/services/pyvrp.py:33-40 | in the built matrix, a pair some edge names holds 100 times the cost of the last such edge in list order, on the diagonal too |
| CostMatrix.BuildMatrix | backend/services/pyvrp.py:81-88 | the matrix built from N positions and in-range edges is N by N |
| OrToolsData.Repeat | backend/services/ortools.py:34-35 | the inner vehicle loop appends the capacity exactly `number` times, and none for a zero or negative count |
| OrToolsData.CreateDataModel | backend/services/ortools.py:11-38 | a CVRP without demands fails (MissingDemands) and so does an empty depot list (NoDepot). Otherwise the matrix is the N-by-N cost matrix of the edges, with N the number of demands or time windows; the fleet is the capacity list of the expanded types and the plain sum of their counts; the depot is depot_indices[0]; the demands are passed through; a CVRP gets a distance matrix and no windows, a TWVRP a time matrix and its own window list |
| OrToolsData.DataModelCells | backend/services/ortools.py:17-29 | the data model's matrix cell by cell: an unnamed pair is 0 or the sentinel, a named pair holds 100 times its last edge's cost |
| OrToolsData.VehicleCapacitiesAppend | backend/services/ortools.py:33-35 | expanding two runs of vehicle types one after another gives the concatenation of their expansions, so capacities come in type order |
| OrToolsData.FleetLength | backend/services/ortools.py:31-35 | the capacity list has one entry per vehicle actually created; a negative count creates none |
| OrToolsData.FleetSize | backend/services/ortools.py:31-36 | when no count is negative, num_vehicles (the plain sum of counts) equals the length of the capacity list |
| OrToolsData.VehicleCapacityOfType | backend/services/ortools.py:33-35 | the vehicles of type t form one block, right after those of the earlier types, and each has type t's capacity |
| OrToolsData.AssignTimeWindows | backend/services/ortools.py:179-191 | every location except the depot gets its own window as its range and the depot gets none; every vehicle start gets the depot's window, one per vehicle. With a vehicle to start, a depot that is no position of the window list (negative positions counting from the end) fails with WindowIndexOutOfRange, and only then |
| OrToolsSolution.WalkCvrpRoute | backend/services/ortools.py:49-70 | a CVRP route yields the vertices strictly between the two depot visits. Its load sums the demands of every vertex but the end, the start depot included. Its distance has one arc per vertex but the end: from a vertex to the routing index two places on, or to the end index |
| OrToolsSolution.WalkTwvrpRoute | backend/services/ortools.py:225-242 | a TWVRP route yields every vertex, both depots included, and adds the matrix time of each consecutive vertex pair to the running total |
| OrToolsSolution.PrintCvrpSolution | backend/services/ortools.py:40-81 | one interior list per used vehicle, in vehicle order, unused vehicles skipped; total distance times 100 is the sum of the charged route distances |
| OrToolsSolution.PrintTwvrpSolution | backend/services/ortools.py:215-253 | one full vertex list per used vehicle, in vehicle order; total time times 100 is the sum of the route times |
| OrToolsSolution.SolveCvrp | backend/services/ortools.py:144-150 | the failures of building the data model (line 86) are propagated. Without a solution the result is no visits and distance -1; with one it is the CVRP report |
| OrToolsSolution.SolveTwvrp | backend/services/ortools.py:152-213 | an empty depot list fails when the data model is built (line 154); with vehicles to start, a first depot outside the window list fails when its window is read (line 190). Otherwise no solution gives no visits and 0, not -1, and a solution gives the TWVRP report over the built time matrix |
| OrToolsSolution.UsedInteriorsPositions | backend/services/ortools.py:46-57 | the list of used vehicle v sits at position "number of used vehicles before v", so the lists are in ascending vehicle order and unused vehicles leave no entry |
| OrToolsSolution.UsedInteriorsLength | backend/services/ortools.py:46-54 | there are exactly as many visit lists as used vehicles |
| OrToolsSolution.InteriorOfRoute | backend/services/ortools.py:54-66 | a CVRP visit list is the route's vertices strictly between its start and its end, no more and no fewer |
| OrToolsSolution.UsedRoutesKeepDepots | backend/services/ortools.py:228-242 | when routes start and end at the depot, every TWVRP visit list begins and ends with the depot |
| OrToolsSolution.CvrpDistanceOfOneVisit | backend/services/ortools.py:61-70 | on a route with a single visit the charged distance is (start vertex to end) plus (visit vertex to end), while following the route costs (start to visit) plus (visit to end) |
| OrToolsSolution.CvrpDistanceIsNotPathCost | backend/services/ortools.py:61-70 | a concrete route whose charged distance is 0 though following it costs 7: the start-to-first-visit arc is never charged |
| OrToolsSolution.PathCostOfEdges | backend/services/ortools.py:228-251 | when each arc of a vertex sequence is given by an edge, its time in the matrix is 100 times the sum of those edges' input times, so dividing the total by 100 gives the input unit back |
| PyvrpModel.NonDepotIndices | backend/services/pyvrp.py:29-32 | the client loop adds every index below n that is not a listed depot, exactly once, in ascending order, and nothing else |
| PyvrpModel.CvrpVehicleTypes | backend/services/pyvrp.py:23-24 | one vehicle type per entry, in order, with its count and its capacity |
| PyvrpModel.TwvrpVehicleTypes | backend/services/pyvrp.py:52-58 | one vehicle type per entry, in order, with its count, its capacity as the maximum duration, and the first depot's window |
| PyvrpModel.DepotLocations | backend/services/pyvrp.py:26-28 | one depot per listed index, in list order, at that vertex, carrying that index's window when windows are given (lines 65-71) |
| PyvrpModel.ClientLocations | backend/services/pyvrp.py:72-79 | one client per index, in order, at that vertex, with its delivery and its window when those are given |
| PyvrpModel.RowsEdgesLength | backend/services/pyvrp.py:41-42 | the first i rows of the edge loop make i times n calls |
| PyvrpModel.RowsEdgesAt | backend/services/pyvrp.py:41-43 | within the first i rows, the call for pair (i',j') is at position i'*n+j' and carries that cell's value |
| PyvrpModel.RowsEdgesRowMajor | backend/services/pyvrp.py:41-43 | the calls of all n rows are the row-major calls: n times n of them, pair (i,j) at position i*n+j with that cell's value |
| PyvrpModel.AddRowEdges | backend/services/pyvrp.py:42-43 | the inner loop appends the calls of row i, one per column in ascending order, to those made so far |
| PyvrpModel.AddAllEdges | backend/services/pyvrp.py:41-43 | add_edge is called exactly once per ordered pair of positions, the diagonal included, row by row, with that pair's matrix value |
| PyvrpModel.AddModelEdges | backend/services/pyvrp.py:89-91 | looking up more positions than the model has locations fails. Otherwise the model gains exactly the row-major edge calls and nothing else changes |
| PyvrpModel.BuildCvrpModel | backend/services/pyvrp.py:21-43 | without demands the CVRP fails (MissingDemands). Otherwise it always succeeds, with the vehicle types, the depots in depot_indices order, the non-depot clients in ascending order with their deliveries, and the N-squared edge calls |
| PyvrpModel.BuildTwvrpModel | backend/services/pyvrp.py:50-91 | vehicles with no depot fail (NoDepot). Next, a window list without an entry for every listed depot and every non-depot vertex fails (WindowIndexOutOfRange), as the window reads at lines 56-57, 69-70 and 77-78 do. Otherwise the model is built exactly when the locations cover the time-window positions, and fails with LocationIndexOutOfRange when they do not. A built model has the TWVRP vehicle types, windowed depots, the clients and the edge calls. Missing demands are never an error |
| PyvrpModel.NonDepotCount | backend/services/pyvrp.py:29-32 | the non-depot indices and the depot indices below n together number exactly n |
| PyvrpModel.LocationsCoverPositions | backend/services/pyvrp.py:26-43 | depots plus non-depot clients are at least as many as the matrix positions, so the CVRP edge loop never looks up a missing location |
| PyvrpModel.NoNonDepotBelowLeadingDepots | backend/services/pyvrp.py:29-30 | when the depots are 0..d-1, no index below d is a client |
| PyvrpModel.NonDepotOfLeadingDepots | backend/services/pyvrp.py:29-32 | when the depots are 0..d-1, the clients are exactly d, d+1, ..., n-1 |
| PyvrpModel.CvrpLocationsFollowVertices | backend/services/pyvrp.py:26-43 | when the depots are the first d vertices, model location i of a CVRP stands at vertex i, so the matrix and the locations agree |
| PyvrpModel.TwvrpClientsDoubled | backend/services/pyvrp.py:59-79 | with demands given, every non-depot vertex becomes two clients: first the delivery copies with no window, then the windowed copies with no delivery |
| PyvrpModel.TwvrpMatrixReachesDeliveryCopies | backend/services/pyvrp.py:59-91 | with doubled clients and depots 0..d-1, every matrix position past the depots is a delivery copy with no time window, so the windowed clients get no edges |
| PyvrpModel.PrintRoute | backend/services/pyvrp.py:16-19 | one route is printed as the arcs from the position the walk stands at, through its clients, back to 0, each with its matrix value divided by 100, and the walk is left standing at 0 |
| PyvrpModel.PrintSolution | backend/services/pyvrp.py:12-19 | the walk fails (MatrixIndexOutOfRange) exactly when some route reaches a location that is no matrix position, the return to 0 included. Otherwise, because the position carried from route to route is 0 after every route, each route is printed as the arcs from 0 through its clients back to 0, each with its matrix value divided by 100 |
| PyvrpModel.SolveCvrp | backend/services/pyvrp.py:21-48 | without demands the CVRP fails (MissingDemands); a solver route through a location that is no matrix position fails in print_solution (MatrixIndexOutOfRange); otherwise the result carries the solver's routes unchanged and its cost divided by 100 |
| PyvrpModel.SolveTwvrp | backend/services/pyvrp.py:50-96 | the failures come in the source's order: vehicles with no depot (NoDepot), then a window list too short for the depots and clients (WindowIndexOutOfRange), then a matrix with more positions than model locations (LocationIndexOutOfRange). Otherwise the result carries the solver's routes unchanged and its cost divided by 100 |
| BenchmarkExamples.GetNames | backend/services/examples.py:8-11 | a listing entry is kept exactly when it ends in ".vrp" |
| BenchmarkExamples.GetNamesAppend | backend/services/examples.py:9-10 | filtering keeps the listing order: the names of a concatenated listing are the names of each part, in turn |
| BenchmarkExamples.GetNamesSingle | backend/services/examples.py:9-10 | a one-entry listing keeps its entry exactly when it ends in ".vrp" |
| BenchmarkExamples.SolutionPath | backend/services/examples.py:15 | the solution path is the examples directory followed by as many characters as the name (3 when the name is shorter than 3), ending in "sol" |
| BenchmarkExamples.SolutionPathOfVrp | backend/services/examples.py:15 | "X.vrp" is solved in "X.sol" in the same directory |
| BenchmarkExamples.EdgeCostSymmetric | backend/services/examples.py:35-36 | the cost from i to j equals the cost from j to i |
| BenchmarkExamples.ExampleVehicles | backend/services/examples.py:18-19 | one vehicle type per parsed type, in order, with the first capacity component and the available count |
| BenchmarkExamples.VehiclesPrefix | backend/services/examples.py:18-19 | the first n parsed types map one to one onto the first n vehicle types |
| BenchmarkExamples.RowPrefixAt | backend/services/examples.py:32-37 | within row i, the edges up to column j skip only the self-loop and join i to the columns other than i in ascending order, with their costs |
| BenchmarkExamples.MeshRowsLength | backend/services/examples.py:31-37 | the first i rows give i times (n-1) edges |
| BenchmarkExamples.MeshRowsElements | backend/services/examples.py:31-37 | every edge of the first i rows starts in one of those rows, joins two distinct locations with their cost, and sits at the position its endpoints determine |
| BenchmarkExamples.MeshRowsCover | backend/services/examples.py:31-37 | every ordered pair of distinct locations of the first i rows has its edge at the position its endpoints determine |
| BenchmarkExamples.MeshEdges | backend/services/examples.py:31-37 | the edge list has exactly n(n-1) entries, one per ordered pair of distinct locations, in row-major order, with no self-loop and each pair's cost |
| BenchmarkExamples.LocationLists | backend/services/examples.py:21-29 | one vertex and one demand per location: the location's position, and 0 for a depot or the first delivery amount for a client |
| BenchmarkExamples.GetExampleByName | backend/services/examples.py:13-48 | the request is a CVRP carrying the known best value, the mapped vehicles, one vertex and demand per location, the full-mesh edges, and depot indices Range(d), that is 0..d-1, the form CvrpLocationsFollowVertices assumes |
| BenchmarkExamples.FullMeshEdgesWithin | backend/services/examples.py:31-37 | every edge of an instance joins two of its locations, so the matrix can be built from it |
| BenchmarkExamples.FullMeshMatrix | backend/services/examples.py:31-37 | the matrix built from an instance holds 0 on the diagonal and 100 times the pair's cost everywhere else, so no cell keeps the sentinel |
| BenchmarkExamples.FullMeshMatrixSymmetric | backend/services/examples.py:35-36 | the matrix built from an instance is symmetric |

## Left out

- The search. This covers the OR-Tools routing model, its capacity and time dimensions,
  search strategies and time limits, and PyVRP's `solve` with its run-time stop. These
  are calls into the routing libraries. The solution they return is a parameter: an
  `Assignment` for OR-Tools, a `SolveResult` for PyVRP.
- OR-Tools `IndexToNode`, `GetArcCostForVehicle`, `IsVehicleUsed`, `Start`, `End` and
  `NextVar` are library behaviour. They are replaced by function parameters and by the
  explicit per-vehicle route list.
- `time_callback` of `solveTwvrp` ignores its arguments and reads a loop variable bound
  later, so it gives no cost function that could be stated.
- The OR-Tools dimension constants (slack 30, horizon 300000) only configure the search.
  So do the finalizer variables.
- Console output (`print`, the `plan_output` strings, the objective line) has no effect
  on the results. The CVRP total load is only printed, so it is computed but not
  returned.
- HTTP routing, application start-up and the abstract solver base are plumbing
  (backend/route.py, backend/main.py, backend/services/base.py).
- File I/O in the examples service is left to the caller: the directory listing, the
  instance parser, opening the solution file and reading its first line as an integer.
  The listing, the parsed instance and that integer are parameters.
- Floating point. Coordinates and edge costs are integers, and the scaling by 100 is
  exact. The dividing back is exact rational division. The rounded Euclidean distance
  is a parameter, applied to the squared distance.
- Python's negative indices are not modelled, except where the OR-Tools back end reads
  the depot's time window. Some index failures are preconditions instead of errors:
  - edge endpoints within the matrix;
  - depot indices, and the non-depot demand indices, within the vertex list;
  - the first load dimension of parsed instances.

  The other failures the services reach are modelled as errors:
  - the length of absent demands;
  - the first of an empty depot list;
  - a location lookup past the PyVRP model's location list;
  - the depot's time window read past the window list (ortools.py:190), where a negative
    depot index counts from the end as in Python;
  - a depot or client time window read past the window list by the PyVRP TWVRP
    (pyvrp.py:56-57, 69-70, 77-78);
  - a visited location looked up past the PyVRP cost matrix in `print_solution`.
- The solvers' own failures are not modelled. This covers OR-Tools rejecting a depot
  outside the matrix when the index manager is built, and PyVRP rejecting a model
  with locations that have no edges. The solvers' routes are taken to hold
  non-negative indices, as the libraries return them.
- The PyVRP solver may report an infinite cost for an infeasible result. The model's
  cost is an integer.
- BenchmarkExamples.EdgeCost: squares and sums the coordinate differences but leaves
  the square root and its rounding to the given function, because Python float
  rounding is not modelled.
- The frontend is map and chart UI and is not part of this model.
- There is no search engine of the service's own and no edge validation: the code hands
  the problem to the libraries as it is. So a malformed or negative edge is not an error
  of the model either. The unset-cell value is the literal 9999999999. A TWVRP without a
  solution reports 0 (ortools.py:212), while a CVRP without one reports -1.
- The TWVRP report divides its time total by 100 (ortools.py:251). That is no unit error.
  The time matrix is scaled by the same 100 when it is built (ortools.py:29), so the
  division restores the input unit (`OrToolsSolution.PathCostOfEdges`).
