/** An undirected weighted graph over vertices 0 .. vertexNum-1 whose edges are
    kept in the order they were added and looked up by index. */
module WeightedGraph {

  datatype Edge = Edge(v1: nat, v2: nat, w: int)

  datatype Graph = Graph(vertexNum: nat, edges: seq<Edge>) {

    function AddEdge(v1: nat, v2: nat, w: int): Graph
    {
      Graph(vertexNum, edges + [Edge(v1, v2, w)])
    }

    function GetEdge(i: nat): Edge
      requires i < |edges|
    {
      edges[i]
    }
  }

  /** A graph with `n` vertices and no edges (the state after clear and setVertexNum). */
  function Empty(n: nat): Graph
  {
    Graph(n, [])
  }

  /** No edge occurs twice. */
  predicate Distinct(s: seq<Edge>)
  {
    forall i, j | 0 <= i < j < |s| :: s[i] != s[j]
  }

  lemma DistinctConcat(a: seq<Edge>, b: seq<Edge>)
    requires Distinct(a) && Distinct(b)
    requires forall e | e in a :: e !in b
    ensures Distinct(a + b)
  {
    forall i, j | 0 <= i < j < |a + b| ensures (a + b)[i] != (a + b)[j] {
      if i < |a| && |a| <= j {
        assert (a + b)[i] in a && (a + b)[j] in b;
      }
    }
  }
}
