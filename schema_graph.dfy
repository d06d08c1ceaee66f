/** The directed labelled graph a schema is turned into, the vertex mapping
    the search works on, and the edit operations reported to callers. */
module SchemaGraphs {
  import opened Wrappers
  import opened Seqs

  /** Vertices are identified by an integer id, unique within one graph. */
  type Vertex = int

  /** A directed edge with its relationship label. */
  datatype Edge = Edge(from: Vertex, to: Vertex, edgeLabel: string)

  /** A schema graph: its vertices and its edges, each in insertion order. */
  datatype SchemaGraph = SchemaGraph(vertices: seq<Vertex>, edges: seq<Edge>) {

    /** `SchemaGraph.size()`: the number of vertices. */
    function Size(): nat {
      |vertices|
    }

    /** Every edge joins two vertices of this graph, vertex ids are unique and
        no two edges join the same ordered pair (the graph indexes edges by
        their (from, to) pair). */
    predicate WellFormed() {
      && Distinct(vertices)
      && (forall i :: 0 <= i < |edges| ==> edges[i].from in vertices && edges[i].to in vertices)
      && UniqueEndpoints()
    }

    predicate UniqueEndpoints() {
      forall i, j :: 0 <= i < j < |edges| ==>
        edges[i].from != edges[j].from || edges[i].to != edges[j].to
    }

    /** `getEdge(from, to)`: the edge from `from` to `to`, or None (Java's null). */
    function GetEdge(from: Vertex, to: Vertex): (r: Option<Edge>)
      ensures r.Some? ==> r.value in edges && r.value.from == from && r.value.to == to
      ensures r.None? ==> forall e :: e in edges ==> e.from != from || e.to != to
    {
      EdgeBetween(edges, from, to)
    }
  }

  function EdgeBetween(es: seq<Edge>, from: Vertex, to: Vertex): (r: Option<Edge>)
    ensures r.Some? ==> r.value in es && r.value.from == from && r.value.to == to
    ensures r.None? ==> forall e :: e in es ==> e.from != from || e.to != to
  {
    if es == [] then None
    else if es[0].from == from && es[0].to == to then Some(es[0])
    else EdgeBetween(es[1..], from, to)
  }

  lemma UniqueEndpointsDistinct(g: SchemaGraph)
    requires g.UniqueEndpoints()
    ensures Distinct(g.edges)
  {
  }

  /** With one edge per ordered pair, `getEdge` finds exactly the edge of the graph
      between the two vertices, and nothing when there is none. */
  lemma {:induction false} GetEdgeExact(g: SchemaGraph, e: Edge)
    requires g.UniqueEndpoints()
    ensures g.GetEdge(e.from, e.to) == Some(e) <==> e in g.edges
  {
    if e in g.edges {
      var r := g.GetEdge(e.from, e.to);
      var i :| 0 <= i < |g.edges| && g.edges[i] == e;
      var j :| 0 <= j < |g.edges| && g.edges[j] == r.value;
      assert !(i < j) && !(j < i);
    }
  }

  /** A correspondence between source and target vertices. As in the Java
      class it records the source list and the target list in insertion order;
      the i-th source is mapped to the i-th target, and the mapping is read in
      both directions (`getTarget`, `getSource`). */
  datatype Mapping = Mapping(sources: seq<Vertex>, targets: seq<Vertex>) {

    /** A bijection between the listed sources and targets. */
    predicate Valid() {
      |sources| == |targets| && Distinct(sources) && Distinct(targets)
    }

    /** `Mapping.size()`: the number of mapped pairs. */
    function Size(): nat {
      |sources|
    }

    /** `getTarget(v)`: the image of `v`, or None (Java's null) when `v` is not mapped. */
    function GetTarget(v: Vertex): (r: Option<Vertex>)
      ensures r.Some? <==> v in sources && IndexOf(sources, v).value < |targets|
    {
      match IndexOf(sources, v)
      case None => None
      case Some(i) => if i < |targets| then Some(targets[i]) else None
    }

    /** `getSource(w)`: the pre-image of `w`, or None when `w` is not mapped. */
    function GetSource(w: Vertex): (r: Option<Vertex>)
      ensures r.Some? <==> w in targets && IndexOf(targets, w).value < |sources|
    {
      match IndexOf(targets, w)
      case None => None
      case Some(i) => if i < |sources| then Some(sources[i]) else None
    }

    /** A mapping is total over a vertex list when every vertex has an image. */
    predicate CoversSources(vs: seq<Vertex>) {
      forall v :: v in vs ==> v in sources
    }
  }

  /** The two lookups of a valid mapping are inverse to each other. */
  lemma MappingInverse(m: Mapping, v: Vertex, w: Vertex)
    requires m.Valid()
    ensures m.GetTarget(v) == Some(w) <==> m.GetSource(w) == Some(v)
  {
    if m.GetTarget(v) == Some(w) {
      var i := IndexOf(m.sources, v).value;
      DistinctIndexOf(m.targets, i);
    }
    if m.GetSource(w) == Some(v) {
      var j := IndexOf(m.targets, w).value;
      DistinctIndexOf(m.sources, j);
    }
  }

  /** The edit operations a diff reports. The vertex operations are produced
      by the cost computation of a full mapping; the edge operations by the
      two-pass edge rule. Descriptions are not modelled. */
  datatype EditOperation =
    | InsertVertex(vertex: Vertex)
    | DeleteVertex(vertex: Vertex)
    | ChangeVertex(sourceVertex: Vertex, targetVertex: Vertex)
    | InsertEdge(edge: Edge)
    | DeleteEdge(edge: Edge)
    | ChangeEdge(sourceEdge: Edge, targetEdge: Edge)
}
