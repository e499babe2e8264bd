/**
 The directed multigraph kept as an adjacency matrix of edge counts. `Counts` is its abstract value;
 the class stores the matrix row by row in one flat array.
 */
module Digraph {
  import opened Arithmetic
  import opened Sums

  type Counts = seq<seq<int>>

  ghost predicate Square(g: Counts) {
    forall u :: 0 <= u < |g| ==> |g[u]| == |g|
  }

  ghost predicate IsCounts(g: Counts) {
    Square(g) && forall u, v :: 0 <= u < |g| && 0 <= v < |g| ==> g[u][v] >= 0
  }

  ghost function Add(g: Counts, u: int, v: int, k: int): Counts
    requires Square(g) && 0 <= u < |g| && 0 <= v < |g|
  {
    g[u := g[u][v := g[u][v] + k]]
  }

  /** The sum of column v over the given rows. */
  ghost function ColumnSum(rows: Counts, v: nat): int
    requires forall u :: 0 <= u < |rows| ==> v < |rows[u]|
  {
    if |rows| == 0 then 0 else ColumnSum(rows[..|rows| - 1], v) + rows[|rows| - 1][v]
  }

  lemma {:induction false} ColumnSumUpdate(rows: Counts, u: int, row: seq<int>, v: nat)
    requires forall a :: 0 <= a < |rows| ==> v < |rows[a]|
    requires 0 <= u < |rows| && v < |row|
    ensures ColumnSum(rows[u := row], v) == ColumnSum(rows, v) - rows[u][v] + row[v]
    decreases |rows|
  {
    var k := |rows| - 1;
    if u < k {
      assert rows[u := row][..k] == rows[..k][u := row];
      ColumnSumUpdate(rows[..k], u, row, v);
    } else {
      assert rows[u := row][..k] == rows[..k];
    }
  }

  lemma {:induction false} ColumnSumZero(rows: Counts, v: nat)
    requires forall a :: 0 <= a < |rows| ==> v < |rows[a]| && rows[a][v] >= 0
    ensures ColumnSum(rows, v) >= 0
    ensures ColumnSum(rows, v) == 0 ==> forall a :: 0 <= a < |rows| ==> rows[a][v] == 0
    decreases |rows|
  {
    if |rows| > 0 {
      var k := |rows| - 1;
      ColumnSumZero(rows[..k], v);
      assert forall a :: 0 <= a < k ==> rows[..k][a] == rows[a];
    }
  }

  // ----- The stored matrix -----

  lemma EndOfColumn(n: nat, k: nat, v: nat)
    requires k <= n && v < n
    ensures k * n + v == v + n * n <==> k == n
    ensures (k + 1) * n == k * n + n
  {
    if k < n {
      RowStep(n, k, n);
    }
  }

  /** Where the entry of row u and column v is stored. */
  function Cell(n: nat, u: nat, v: nat): (i: nat)
    requires u < n && v < n
    ensures i < n * n
  {
    IndexInRange(n, u, v);
    u * n + v
  }

  ghost function TableRow(data: seq<int>, n: nat, u: nat): (row: seq<int>)
    requires |data| == n * n && u < n
  {
    seq(n, v requires 0 <= v < n => data[Cell(n, u, v)])
  }

  /** The matrix stored in `data`. */
  ghost function Table(data: seq<int>, n: nat): (g: Counts)
    requires |data| == n * n
    ensures |g| == n && Square(g)
  {
    seq(n, u requires 0 <= u < n => TableRow(data, n, u))
  }

  lemma StoreInTable(data: seq<int>, n: nat, u: nat, v: nat, k: int)
    requires |data| == n * n && u < n && v < n
    ensures var i := Cell(n, u, v);
      Table(data[i := data[i] + k], n) == Add(Table(data, n), u, v, k)
  {
    var i := Cell(n, u, v);
    var after := data[i := data[i] + k];
    forall a: nat, b: nat | a < n && b < n
      ensures Table(after, n)[a][b] == Add(Table(data, n), u, v, k)[a][b]
    {
      if Cell(n, a, b) == i {
        IndexUnique(n, a, b, u, v);
      }
    }
    forall a: nat | a < n
      ensures Table(after, n)[a] == Add(Table(data, n), u, v, k)[a]
    {
    }
  }
}

module AdjacencyMatrix {
  import opened Arithmetic
  import opened Sums
  import opened Digraph

  class DirectedGraphAsAdjMatrix {
    const mNumVertex: nat
    const mData: array<int>

    ghost predicate Valid() {
      mData.Length == mNumVertex * mNumVertex
    }

    ghost function Adjacency(): (g: Counts)
      requires Valid()
      reads mData
      ensures |g| == mNumVertex && Square(g)
    {
      Table(mData[..], mNumVertex)
    }

    constructor (numVertex: nat)
      ensures Valid() && mNumVertex == numVertex && fresh(mData)
      ensures forall u, v :: 0 <= u < numVertex && 0 <= v < numVertex ==> Adjacency()[u][v] == 0
    {
      mNumVertex := numVertex;
      mData := new int[numVertex * numVertex](_ => 0);
    }

    predicate ExistEdge(u: nat, v: nat)
      requires Valid() && u < mNumVertex && v < mNumVertex
      reads mData
      ensures ExistEdge(u, v) <==> Adjacency()[u][v] > 0
    {
      mData[Cell(mNumVertex, u, v)] > 0
    }

    method AddEdge(u: nat, v: nat)
      requires Valid() && u < mNumVertex && v < mNumVertex
      modifies mData
      ensures Adjacency() == Add(old(Adjacency()), u, v, 1)
    {
      ghost var data := mData[..];
      var i := Cell(mNumVertex, u, v);
      mData[i] := mData[i] + 1;
      assert mData[..] == data[i := data[i] + 1];
      StoreInTable(data, mNumVertex, u, v, 1);
    }

    method RemoveEdge(u: nat, v: nat)
      requires Valid() && u < mNumVertex && v < mNumVertex
      modifies mData
      ensures Adjacency() == Add(old(Adjacency()), u, v, -1)
    {
      ghost var data := mData[..];
      var i := Cell(mNumVertex, u, v);
      mData[i] := mData[i] - 1;
      assert mData[..] == data[i := data[i] - 1];
      StoreInTable(data, mNumVertex, u, v, -1);
    }

    /** Walks along row u. */
    method DegreeOutOfVertex(u: nat) returns (degree: int)
      requires Valid() && u < mNumVertex
      ensures degree == Sum(Adjacency()[u])
    {
      degree := 0;
      var begin := u * mNumVertex;
      var end := begin + mNumVertex;
      ghost var row := Adjacency()[u];
      ghost var k := 0;
      while begin != end
        invariant 0 <= k <= mNumVertex && begin == u * mNumVertex + k
        invariant degree == Sum(row[..k])
        decreases mNumVertex - k
      {
        assert Cell(mNumVertex, u, k) == begin;
        assert row[..k + 1][..k] == row[..k];
        degree := degree + mData[begin];
        begin := begin + 1;
        k := k + 1;
      }
      assert row[..mNumVertex] == row;
    }

    /** Walks down column v, one row length at a time. */
    method DegreeInOfVertex(v: nat) returns (degree: int)
      requires Valid() && v < mNumVertex
      ensures degree == ColumnSum(Adjacency(), v)
    {
      degree := 0;
      var begin := v;
      var end := v + mNumVertex * mNumVertex;
      ghost var g := Adjacency();
      ghost var k := 0;
      while begin != end
        invariant 0 <= k <= mNumVertex && begin == k * mNumVertex + v
        invariant degree == ColumnSum(g[..k], v)
        decreases mNumVertex - k
      {
        EndOfColumn(mNumVertex, k, v);
        assert Cell(mNumVertex, k, v) == begin;
        assert g[..k + 1][..k] == g[..k];
        degree := degree + mData[begin];
        begin := begin + mNumVertex;
        k := k + 1;
      }
      EndOfColumn(mNumVertex, k, v);
      assert g[..mNumVertex] == g;
    }
  }
}
