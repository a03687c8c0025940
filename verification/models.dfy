/**
 The request and response records of the routing service (backend/models.py).

 A `CVRProblem` and a `TWVRProblem` share every field except the time windows,
 so both are one `VRProblem` whose `kind` says which of the two it is.
 */
module Models {

  datatype Option<T> = None | Some(value: T)

  /** A vertex position. The service declares floats; the model keeps integers. */
  datatype Coordinates = Coordinates(x: int, y: int)

  /** A group of `number` identical vehicles. In a CVRP `capacity` is the load limit,
      in a TWVRP the same field is read as the maximum route duration. */
  datatype VehiclesType = VehiclesType(capacity: int, number: int)

  /** A directed arc between two vertex indices, with its time, cost or length. */
  datatype Edge = Edge(frm: int, to: int, cost: int)

  /** An inclusive arrival interval, the pair `(early, late)` of the service. */
  datatype TimeWindow = TimeWindow(early: int, late: int)

  /** Which of the two request classes a problem is. */
  datatype ProblemKind = Capacitated | TimeWindowed(timeWindows: seq<TimeWindow>)

  datatype VRProblem = VRProblem(
    vehicles: seq<VehiclesType>,
    vertices: seq<Coordinates>,
    edges: seq<Edge>,
    depotIndices: seq<int>,
    bestSol: Option<int>,
    demands: Option<seq<int>>,
    kind: ProblemKind)

  /** One list of vertex indices per used vehicle, and the objective value. */
  datatype VRPSolution = VRPSolution(visits: seq<seq<int>>, distance: real)

  /** The ways the services fail on a request they cannot process: the length of
      absent demands is taken, the first of no depots is read, a location index
      past the end of the solver model's location list is looked up, the depot's
      time window is read past the end of the window list, or a visited location
      is looked up past the end of the cost matrix. */
  datatype Error =
    | MissingDemands
    | NoDepot
    | LocationIndexOutOfRange
    | WindowIndexOutOfRange
    | MatrixIndexOutOfRange

  datatype Result<T> = Ok(value: T) | Err(error: Error)
}
