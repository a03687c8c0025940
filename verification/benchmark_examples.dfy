/**
 The benchmark instances (backend/services/examples.py): which files of the
 examples directory are offered, where the known best value of an instance is
 read from, and how a parsed instance becomes a CVRP request.

 The directory listing, the parsed instance and the first line of the solution
 file are inputs. The rounded Euclidean distance is a given function of the
 squared distance between two locations.
 */
module BenchmarkExamples {
  import opened Models
  import opened CostMatrix
  import opened Arithmetic

  const ExamplesDir: string := "backend/examples/"

  predicate EndsWith(s: string, suffix: string) {
    |suffix| <= |s| && s[|s| - |suffix|..] == suffix
  }

  /** `get_names`: the entries of the listing that end in ".vrp", in listing order. */
  function GetNames(listing: seq<string>): (names: seq<string>)
    ensures forall x :: x in names <==> x in listing && EndsWith(x, ".vrp")
    decreases |listing|
  {
    if |listing| == 0 then []
    else
      var last := listing[|listing| - 1];
      GetNames(listing[..|listing| - 1]) + (if EndsWith(last, ".vrp") then [last] else [])
  }

  /** Filtering a listing piece by piece is filtering it whole, so the kept names
      keep their listing order. */
  lemma {:induction false} GetNamesAppend(a: seq<string>, b: seq<string>)
    ensures GetNames(a + b) == GetNames(a) + GetNames(b)
    decreases |b|
  {
    if |b| == 0 {
      assert a + b == a;
    } else {
      var b' := b[..|b| - 1];
      assert (a + b)[..|a + b| - 1] == a + b';
      assert (a + b)[|a + b| - 1] == b[|b| - 1];
      GetNamesAppend(a, b');
    }
  }

  /** A one-entry listing keeps its entry exactly when it ends in ".vrp". */
  lemma GetNamesSingle(x: string)
    ensures GetNames([x]) == if EndsWith(x, ".vrp") then [x] else []
  {
    assert [x][..0] == [];
  }

  /** The file the known best value is read from: the name with its last three
      characters replaced by "sol" (Python's slice leaves nothing of a shorter name). */
  function SolutionPath(name: string): (path: string)
    ensures EndsWith(path, "sol")
    ensures |path| == |ExamplesDir| + (if |name| >= 3 then |name| else 3)
  {
    ExamplesDir + (if |name| >= 3 then name[..|name| - 3] else "") + "sol"
  }

  /** "X.vrp" is solved in "X.sol", next to it. */
  lemma SolutionPathOfVrp(stem: string)
    ensures SolutionPath(stem + ".vrp") == ExamplesDir + stem + ".sol"
  {
    var name := stem + ".vrp";
    assert name[..|name| - 3] == stem + ".";
  }

  /** A parsed client: its position and its delivery amounts per load dimension. */
  datatype ClientData = ClientData(coord: Coordinates, delivery: seq<int>)

  /** A parsed vehicle type: its capacities per load dimension and how many there are. */
  datatype VehicleTypeData = VehicleTypeData(capacity: seq<int>, numAvailable: int)

  /** A parsed instance. Its locations are the depots, then the clients. */
  datatype ProblemData = ProblemData(depots: seq<Coordinates>, clients: seq<ClientData>,
                                     vehicleTypes: seq<VehicleTypeData>)

  function NumLocations(d: ProblemData): nat {
    |d.depots| + |d.clients|
  }

  function LocationCoord(d: ProblemData, idx: nat): Coordinates
    requires idx < NumLocations(d)
  {
    if idx < |d.depots| then d.depots[idx] else d.clients[idx - |d.depots|].coord
  }

  /** What the instance parser guarantees: every client and every vehicle type has a
      first load dimension. */
  predicate HasFirstDimension(d: ProblemData) {
    && (forall c :: 0 <= c < |d.clients| ==> |d.clients[c].delivery| > 0)
    && (forall t :: 0 <= t < |d.vehicleTypes| ==> |d.vehicleTypes[t].capacity| > 0)
  }

  /** The demand of a location: 0 for a depot, the first delivery amount otherwise. */
  function LocationDemand(d: ProblemData, idx: nat): int
    requires HasFirstDimension(d) && idx < NumLocations(d)
  {
    if idx < |d.depots| then 0 else d.clients[idx - |d.depots|].delivery[0]
  }

  function SquaredDistance(a: Coordinates, b: Coordinates): int {
    (a.x - b.x) * (a.x - b.x) + (a.y - b.y) * (a.y - b.y)
  }

  /** The cost of the edge between locations i and j: the rounded root of their
      squared distance. */
  function EdgeCost(d: ProblemData, roundSqrt: int -> int, i: nat, j: nat): int
    requires i < NumLocations(d) && j < NumLocations(d)
  {
    roundSqrt(SquaredDistance(LocationCoord(d, i), LocationCoord(d, j)))
  }

  /** The cost of going from i to j is the cost of coming back. */
  lemma EdgeCostSymmetric(d: ProblemData, roundSqrt: int -> int, i: nat, j: nat)
    requires i < NumLocations(d) && j < NumLocations(d)
    ensures EdgeCost(d, roundSqrt, i, j) == EdgeCost(d, roundSqrt, j, i)
  {
    var a, b := LocationCoord(d, i), LocationCoord(d, j);
    assert (a.x - b.x) * (a.x - b.x) == (b.x - a.x) * (b.x - a.x);
    assert (a.y - b.y) * (a.y - b.y) == (b.y - a.y) * (b.y - a.y);
  }

  /** `get_example_by_name`'s vehicle loop: one type per parsed type, in order. */
  function ExampleVehicles(d: ProblemData): (r: seq<VehiclesType>)
    requires HasFirstDimension(d)
    ensures |r| == |d.vehicleTypes|
    ensures forall t :: 0 <= t < |r| ==>
      r[t] == VehiclesType(d.vehicleTypes[t].capacity[0], d.vehicleTypes[t].numAvailable)
  {
    VehiclesPrefix(d, |d.vehicleTypes|)
  }

  function VehiclesPrefix(d: ProblemData, n: nat): (r: seq<VehiclesType>)
    requires HasFirstDimension(d) && n <= |d.vehicleTypes|
    ensures |r| == n
    ensures forall t :: 0 <= t < n ==>
      r[t] == VehiclesType(d.vehicleTypes[t].capacity[0], d.vehicleTypes[t].numAvailable)
    decreases n
  {
    if n == 0 then []
    else
      var vt := d.vehicleTypes[n - 1];
      VehiclesPrefix(d, n - 1) + [VehiclesType(vt.capacity[0], vt.numAvailable)]
  }

  /** The column of the k-th edge leaving row i: the columns other than i, ascending. */
  function SkipColumn(i: nat, k: nat): nat {
    if k < i then k else k + 1
  }

  /** Where the edge (i, j), i != j, sits in the edge list of an n-location instance. */
  function PairIndex(n: nat, i: nat, j: nat): int {
    i * (n - 1) + (if j < i then j else j - 1)
  }

  /** The edges of row i up to column j, self-loop left out. */
  function RowPrefix(d: ProblemData, roundSqrt: int -> int, i: nat, j: nat): seq<Edge>
    requires i < NumLocations(d) && j <= NumLocations(d)
    decreases j
  {
    if j == 0 then []
    else
      RowPrefix(d, roundSqrt, i, j - 1)
      + (if j - 1 != i then [Edge(i, j - 1, EdgeCost(d, roundSqrt, i, j - 1))] else [])
  }

  /** The edges of rows 0 .. i-1. */
  function MeshRows(d: ProblemData, roundSqrt: int -> int, i: nat): seq<Edge>
    requires i <= NumLocations(d)
    decreases i
  {
    if i == 0 then []
    else MeshRows(d, roundSqrt, i - 1) + RowPrefix(d, roundSqrt, i - 1, NumLocations(d))
  }

  lemma {:induction false} RowPrefixAt(d: ProblemData, roundSqrt: int -> int, i: nat, j: nat)
    requires i < NumLocations(d) && j <= NumLocations(d)
    ensures |RowPrefix(d, roundSqrt, i, j)| == if j <= i then j else j - 1
    ensures forall o :: 0 <= o < |RowPrefix(d, roundSqrt, i, j)| ==>
      SkipColumn(i, o) < j
      && RowPrefix(d, roundSqrt, i, j)[o] == Edge(i, SkipColumn(i, o), EdgeCost(d, roundSqrt, i, SkipColumn(i, o)))
    decreases j
  {
    if j > 0 {
      RowPrefixAt(d, roundSqrt, i, j - 1);
    }
  }

  lemma {:induction false} MeshRowsLength(d: ProblemData, roundSqrt: int -> int, i: nat)
    requires i <= NumLocations(d)
    ensures |MeshRows(d, roundSqrt, i)| == i * (NumLocations(d) - 1)
    decreases i
  {
    if i > 0 {
      MeshRowsLength(d, roundSqrt, i - 1);
      RowPrefixAt(d, roundSqrt, i - 1, NumLocations(d));
      assert i * (NumLocations(d) - 1) == (i - 1) * (NumLocations(d) - 1) + (NumLocations(d) - 1);
    }
  }

  /** Edge k joins two distinct locations, carries their cost, and sits at the
      position `PairIndex` gives its endpoints. */
  predicate EdgeWellPlaced(edges: seq<Edge>, d: ProblemData, roundSqrt: int -> int, k: nat)
    requires k < |edges|
  {
    var n, e := NumLocations(d), edges[k];
    && 0 <= e.frm < n && 0 <= e.to < n && e.frm != e.to
    && e.cost == EdgeCost(d, roundSqrt, e.frm, e.to)
    && k == PairIndex(n, e.frm, e.to)
  }

  /** The edge of pair (i, j), with its cost, sits at position `PairIndex(n, i, j)`. */
  predicate PairPlaced(edges: seq<Edge>, d: ProblemData, roundSqrt: int -> int, i: nat, j: nat)
    requires i < NumLocations(d) && j < NumLocations(d)
  {
    var k := PairIndex(NumLocations(d), i, j);
    0 <= k < |edges| && edges[k] == Edge(i, j, EdgeCost(d, roundSqrt, i, j))
  }

  /** Every edge of the first i rows starts in one of those rows and is well placed. */
  lemma {:induction false} MeshRowsElements(d: ProblemData, roundSqrt: int -> int, i: nat)
    requires i <= NumLocations(d)
    ensures forall k :: 0 <= k < |MeshRows(d, roundSqrt, i)| ==>
      MeshRows(d, roundSqrt, i)[k].frm < i && EdgeWellPlaced(MeshRows(d, roundSqrt, i), d, roundSqrt, k)
    decreases i
  {
    if i > 0 {
      var n := NumLocations(d);
      MeshRowsLength(d, roundSqrt, i - 1);
      MeshRowsElements(d, roundSqrt, i - 1);
      RowPrefixAt(d, roundSqrt, i - 1, n);
      var prev: seq<Edge> := MeshRows(d, roundSqrt, i - 1);
      var row: seq<Edge> := RowPrefix(d, roundSqrt, i - 1, n);
      forall k | 0 <= k < |prev + row|
        ensures (prev + row)[k].frm < i && EdgeWellPlaced(prev + row, d, roundSqrt, k)
      {
        if k < |prev| {
          assert (prev + row)[k] == prev[k];
          assert EdgeWellPlaced(prev, d, roundSqrt, k);
        } else {
          assert (prev + row)[k] == row[k - |prev|];
        }
      }
    }
  }

  /** Every ordered pair of distinct locations of the first i rows has its edge,
      at position `PairIndex`. */
  lemma {:induction false} MeshRowsCover(d: ProblemData, roundSqrt: int -> int, i: nat, i': nat, j': nat)
    requires i <= NumLocations(d) && i' < i && j' < NumLocations(d) && i' != j'
    ensures PairPlaced(MeshRows(d, roundSqrt, i), d, roundSqrt, i', j')
    decreases i
  {
    var n := NumLocations(d);
    MeshRowsLength(d, roundSqrt, i - 1);
    var prev := MeshRows(d, roundSqrt, i - 1);
    var offset := if j' < i' then j' else j' - 1;
    if i' < i - 1 {
      MeshRowsCover(d, roundSqrt, i - 1, i', j');
    } else {
      RowPrefixAt(d, roundSqrt, i - 1, n);
      assert SkipColumn(i', offset) == j';
      assert MeshRows(d, roundSqrt, i)[|prev| + offset] == RowPrefix(d, roundSqrt, i - 1, n)[offset];
    }
  }

  /** The edge list of an instance: one edge per ordered pair of distinct locations,
      in row-major order, with the pair's cost, and nothing else. */
  predicate IsFullMesh(edges: seq<Edge>, d: ProblemData, roundSqrt: int -> int) {
    var n := NumLocations(d);
    && |edges| == n * (n - 1)
    && (forall k :: 0 <= k < |edges| ==> EdgeWellPlaced(edges, d, roundSqrt, k))
    && (forall i, j :: 0 <= i < n && 0 <= j < n && i != j ==> PairPlaced(edges, d, roundSqrt, i, j))
  }

  /** The nested edge loop of `get_example_by_name`. */
  method MeshEdges(d: ProblemData, roundSqrt: int -> int) returns (edges: seq<Edge>)
    ensures IsFullMesh(edges, d, roundSqrt)
  {
    var n := NumLocations(d);
    edges := [];
    var i := 0;
    while i < n
      invariant i <= n && edges == MeshRows(d, roundSqrt, i)
    {
      var j := 0;
      while j < n
        invariant j <= n && edges == MeshRows(d, roundSqrt, i) + RowPrefix(d, roundSqrt, i, j)
      {
        if i != j {
          var cost := roundSqrt(SquaredDistance(LocationCoord(d, i), LocationCoord(d, j)));
          edges := edges + [Edge(i, j, cost)];
        }
        j := j + 1;
      }
      i := i + 1;
    }
    MeshRowsLength(d, roundSqrt, n);
    MeshRowsElements(d, roundSqrt, n);
    forall i, j | 0 <= i < n && 0 <= j < n && i != j
      ensures PairPlaced(edges, d, roundSqrt, i, j)
    {
      MeshRowsCover(d, roundSqrt, n, i, j);
    }
  }

  /** The location loop of `get_example_by_name`: one vertex and one demand per location. */
  method LocationLists(d: ProblemData) returns (vertices: seq<Coordinates>, demands: seq<int>)
    requires HasFirstDimension(d)
    ensures |vertices| == NumLocations(d) && |demands| == NumLocations(d)
    ensures forall k :: 0 <= k < NumLocations(d) ==>
      vertices[k] == LocationCoord(d, k) && demands[k] == LocationDemand(d, k)
  {
    vertices, demands := [], [];
    var idx := 0;
    while idx < NumLocations(d)
      invariant idx <= NumLocations(d) && |vertices| == idx && |demands| == idx
      invariant forall k :: 0 <= k < idx ==>
        vertices[k] == LocationCoord(d, k) && demands[k] == LocationDemand(d, k)
    {
      if idx < |d.depots| {
        vertices := vertices + [d.depots[idx]];
        demands := demands + [0];
      } else {
        var client := d.clients[idx - |d.depots|];
        vertices := vertices + [client.coord];
        demands := demands + [client.delivery[0]];
      }
      idx := idx + 1;
    }
  }

  /** `get_example_by_name`: the CVRP request of a parsed instance whose solution
      file starts with `sol`. */
  method GetExampleByName(d: ProblemData, sol: int, roundSqrt: int -> int) returns (p: VRProblem)
    requires HasFirstDimension(d)
    ensures p.kind == Capacitated && p.bestSol == Some(sol)
    ensures p.vehicles == ExampleVehicles(d)
    ensures |p.vertices| == NumLocations(d) && p.demands.Some? && |p.demands.value| == NumLocations(d)
    ensures forall k :: 0 <= k < NumLocations(d) ==>
      p.vertices[k] == LocationCoord(d, k) && p.demands.value[k] == LocationDemand(d, k)
    ensures IsFullMesh(p.edges, d, roundSqrt)
    ensures p.depotIndices == Range(|d.depots|)
  {
    var vehicles := ExampleVehicles(d);
    var vertices, demands := LocationLists(d);
    var edges := MeshEdges(d, roundSqrt);
    var depotIndices := Range(|d.depots|);
    p := VRProblem(vehicles, vertices, edges, depotIndices, Some(sol), Some(demands), Capacitated);
  }

  /** A full-mesh edge list only joins locations of the instance. */
  lemma FullMeshEdgesWithin(edges: seq<Edge>, d: ProblemData, roundSqrt: int -> int)
    requires IsFullMesh(edges, d, roundSqrt)
    ensures EdgesWithin(edges, NumLocations(d))
  {
    forall k | 0 <= k < |edges|
      ensures 0 <= edges[k].frm < NumLocations(d) && 0 <= edges[k].to < NumLocations(d)
    {
      assert EdgeWellPlaced(edges, d, roundSqrt, k);
    }
  }

  /** A full-mesh edge list names no cell twice and no diagonal cell, so the cost
      matrix built from an instance holds 0 on the diagonal and 100 times the pair's
      cost everywhere else: no arc is missing. */
  lemma FullMeshMatrix(edges: seq<Edge>, d: ProblemData, roundSqrt: int -> int, i: nat, j: nat)
    requires IsFullMesh(edges, d, roundSqrt) && i < NumLocations(d) && j < NumLocations(d)
    ensures EdgesWithin(edges, NumLocations(d))
    ensures BuildMatrix(NumLocations(d), edges)[i][j]
         == if i == j then 0 else CostMultiplier * EdgeCost(d, roundSqrt, i, j)
  {
    var n := NumLocations(d);
    FullMeshEdgesWithin(edges, d, roundSqrt);
    if i == j {
      forall k | 0 <= k < |edges|
        ensures !Names(edges[k], i, j)
      {
        assert EdgeWellPlaced(edges, d, roundSqrt, k);
      }
      UnnamedCell(n, edges, i, j);
    } else {
      var k := PairIndex(n, i, j);
      assert PairPlaced(edges, d, roundSqrt, i, j);
      forall k' | k < k' < |edges|
        ensures !Names(edges[k'], i, j)
      {
        assert EdgeWellPlaced(edges, d, roundSqrt, k');
        assert k' == PairIndex(n, edges[k'].frm, edges[k'].to);
      }
      NamedCell(n, edges, i, j, k);
    }
  }

  /** Hence the matrix of an instance is symmetric. */
  lemma FullMeshMatrixSymmetric(edges: seq<Edge>, d: ProblemData, roundSqrt: int -> int, i: nat, j: nat)
    requires IsFullMesh(edges, d, roundSqrt) && i < NumLocations(d) && j < NumLocations(d)
    ensures EdgesWithin(edges, NumLocations(d))
    ensures BuildMatrix(NumLocations(d), edges)[i][j] == BuildMatrix(NumLocations(d), edges)[j][i]
  {
    FullMeshMatrix(edges, d, roundSqrt, i, j);
    FullMeshMatrix(edges, d, roundSqrt, j, i);
    EdgeCostSymmetric(d, roundSqrt, i, j);
  }
}
