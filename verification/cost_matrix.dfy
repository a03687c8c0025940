/**
 The dense cost matrix both back ends derive from the sparse edge list
 (backend/services/ortools.py `create_data_model`, and the same loops inside the
 two solve methods of backend/services/pyvrp.py).

 Every cell starts at the sentinel, the diagonal is then set to zero, and the
 edges are written one after another in list order, each as its cost times the
 multiplier. A later edge between the same pair of vertices overwrites an earlier
 one, and an edge from a vertex to itself overwrites the zero.
 */
module CostMatrix {
  import opened Models

  /** Both back ends scale costs by this factor before solving. */
  const CostMultiplier: int := 100

  /** The value standing for "no arc". */
  const Sentinel: int := 9999999999

  type Matrix = seq<seq<int>>

  predicate IsSquare(m: Matrix, n: nat) {
    |m| == n && forall i :: 0 <= i < n ==> |m[i]| == n
  }

  /** Both endpoints of every edge are row/column indices of an n-by-n matrix. */
  predicate EdgesWithin(edges: seq<Edge>, n: nat) {
    forall k :: 0 <= k < |edges| ==> 0 <= edges[k].frm < n && 0 <= edges[k].to < n
  }

  /** Edge `e` is written into cell (i, j). */
  predicate Names(e: Edge, i: int, j: int) {
    e.frm == i && e.to == j
  }

  /** The n-by-n matrix filled with the sentinel. */
  function Filled(n: nat): Matrix {
    seq(n, _ => seq(n, _ => Sentinel))
  }

  function SetCell(m: Matrix, i: nat, j: nat, v: int): (r: Matrix)
    requires i < |m| && j < |m[i]|
  {
    m[i := m[i][j := v]]
  }

  /** The diagonal loop: cells (0,0) .. (k-1,k-1) set to zero. */
  function ZeroDiagonal(m: Matrix, n: nat, k: nat): (r: Matrix)
    requires IsSquare(m, n) && k <= n
    ensures IsSquare(r, n)
    decreases k
  {
    if k == 0 then m else SetCell(ZeroDiagonal(m, n, k - 1), k - 1, k - 1, 0)
  }

  /** The state of the matrix after the edge loop has written `edges`, in order. */
  function ApplyEdges(m: Matrix, n: nat, edges: seq<Edge>): (r: Matrix)
    requires IsSquare(m, n) && EdgesWithin(edges, n)
    ensures IsSquare(r, n)
    decreases |edges|
  {
    if |edges| == 0 then m
    else
      var e := edges[|edges| - 1];
      SetCell(ApplyEdges(m, n, edges[..|edges| - 1]), e.frm, e.to, e.cost * CostMultiplier)
  }

  /** The matrix of an n-vertex problem with the given edges. */
  function BuildMatrix(n: nat, edges: seq<Edge>): (r: Matrix)
    requires EdgesWithin(edges, n)
    ensures IsSquare(r, n)
  {
    ApplyEdges(ZeroDiagonal(Filled(n), n, n), n, edges)
  }

  /** After the diagonal loop the diagonal is zero and every other cell the sentinel. */
  lemma {:induction false} ZeroDiagonalCells(n: nat, k: nat, i: nat, j: nat)
    requires k <= n && i < n && j < n
    ensures ZeroDiagonal(Filled(n), n, k)[i][j] == (if i == j && i < k then 0 else Sentinel)
    decreases k
  {
    if k > 0 {
      ZeroDiagonalCells(n, k - 1, i, j);
    }
  }

  /** A cell no edge names keeps the value it had before the edge loop. */
  lemma {:induction false} UnnamedCellUnchanged(m: Matrix, n: nat, edges: seq<Edge>, i: nat, j: nat)
    requires IsSquare(m, n) && EdgesWithin(edges, n) && i < n && j < n
    requires forall k :: 0 <= k < |edges| ==> !Names(edges[k], i, j)
    ensures ApplyEdges(m, n, edges)[i][j] == m[i][j]
    decreases |edges|
  {
    if |edges| > 0 {
      var init := edges[..|edges| - 1];
      assert forall k :: 0 <= k < |init| ==> init[k] == edges[k];
      UnnamedCellUnchanged(m, n, init, i, j);
    }
  }

  /** A cell some edge names holds the scaled cost of the last such edge in list order. */
  lemma {:induction false} NamedCellLastWins(m: Matrix, n: nat, edges: seq<Edge>, i: nat, j: nat, k: nat)
    requires IsSquare(m, n) && EdgesWithin(edges, n) && i < n && j < n
    requires k < |edges| && Names(edges[k], i, j)
    requires forall k' :: k < k' < |edges| ==> !Names(edges[k'], i, j)
    ensures ApplyEdges(m, n, edges)[i][j] == edges[k].cost * CostMultiplier
    decreases |edges|
  {
    var init := edges[..|edges| - 1];
    if k < |edges| - 1 {
      assert forall k' :: 0 <= k' < |init| ==> init[k'] == edges[k'];
      NamedCellLastWins(m, n, init, i, j, k);
    }
  }

  /** The cell of a pair no edge names: zero on the diagonal, the sentinel elsewhere. */
  lemma UnnamedCell(n: nat, edges: seq<Edge>, i: nat, j: nat)
    requires EdgesWithin(edges, n) && i < n && j < n
    requires forall k :: 0 <= k < |edges| ==> !Names(edges[k], i, j)
    ensures BuildMatrix(n, edges)[i][j] == (if i == j then 0 else Sentinel)
  {
    ZeroDiagonalCells(n, n, i, j);
    UnnamedCellUnchanged(ZeroDiagonal(Filled(n), n, n), n, edges, i, j);
  }

  /** The cell of a pair some edge names: the cost of the last such edge, times 100,
      whether or not the pair is on the diagonal. */
  lemma NamedCell(n: nat, edges: seq<Edge>, i: nat, j: nat, k: nat)
    requires EdgesWithin(edges, n) && i < n && j < n
    requires k < |edges| && Names(edges[k], i, j)
    requires forall k' :: k < k' < |edges| ==> !Names(edges[k'], i, j)
    ensures BuildMatrix(n, edges)[i][j] == CostMultiplier * edges[k].cost
  {
    NamedCellLastWins(ZeroDiagonal(Filled(n), n, n), n, edges, i, j, k);
  }
}
