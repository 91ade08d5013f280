/**
 * DumpGraph: a directed multigraph over (procedure, table) vertices with the
 * two cross-reference indices that `addVertex` keeps up to date.
 *
 * The generic graph library underneath is abstracted as a vertex set and an
 * edge sequence. Its behaviour is assumed to be:
 *   - addVertex(v) adds v and answers true iff v is not yet a vertex, where
 *     vertices are told apart by object identity;
 *   - addEdge(e, v0, v1) calls the overridden addVertex on v0 and then on v1
 *     when they are missing, and then appends e (a fresh edge is never merged).
 */
module DumpGraph {
  import opened Optional
  import opened Catalog

  /** The compound key of a vertex: owning procedure and referenced table. */
  datatype Key = Key(proc: Procedure, table: Table)

  /**
   * A vertex object. `id` stands for object identity: every `new Vertex`
   * receives an id never used before, so two vertices may share a key and
   * still be different objects.
   */
  datatype Vertex = Vertex(id: nat, key: Key)

  /** An edge object, labelled by its statement pair, with its two endpoints. */
  datatype Edge = Edge(stmt0: Statement, stmt1: Statement, source: Vertex, target: Vertex)

  /**
   * The graph state:
   *   procTblXref  (procedure, table) -> vertex;
   *   procXref     procedure -> the vertices added for it;
   *   nextId       the identity the next `new Vertex` receives.
   */
  datatype Graph = Graph(
    vertices: set<Vertex>,
    edges: seq<Edge>,
    procTblXref: map<Key, Vertex>,
    procXref: map<Procedure, set<Vertex>>,
    nextId: nat)

  /** A graph together with the boolean an operation answers. */
  datatype Added = Added(graph: Graph, added: bool)

  /** A graph together with the vertex an operation handed out. */
  datatype Fetched = Fetched(graph: Graph, vertex: Vertex)

  /** Every key entry names a vertex of the graph carrying that key. */
  ghost predicate KeyIndexSound(g: Graph)
  {
    forall k :: k in g.procTblXref ==> g.procTblXref[k] in g.vertices && g.procTblXref[k].key == k
  }

  /** Every vertex's key has an entry (not necessarily naming that very vertex). */
  ghost predicate KeyIndexComplete(g: Graph)
  {
    forall v :: v in g.vertices ==> v.key in g.procTblXref
  }

  /**
   * procXref[p] holds exactly the vertices whose procedure is p, and a
   * procedure has an entry only once a vertex was added for it.
   */
  ghost predicate ProcIndexExact(g: Graph)
  {
    && (forall p :: p in g.procXref ==> g.procXref[p] != {})
    && (forall p, v :: p in g.procXref && v in g.procXref[p] ==> v in g.vertices && v.key.proc == p)
    && (forall v :: v in g.vertices ==> v.key.proc in g.procXref && v in g.procXref[v.key.proc])
  }

  /** Every vertex was allocated before nextId. */
  ghost predicate Allocated(g: Graph)
  {
    forall v :: v in g.vertices ==> v.id < g.nextId
  }

  /** No edge has an endpoint outside the vertex set. */
  ghost predicate NoDanglingEdges(g: Graph)
  {
    forall i :: 0 <= i < |g.edges| ==> g.edges[i].source in g.vertices && g.edges[i].target in g.vertices
  }

  ghost predicate Valid(g: Graph)
  {
    && KeyIndexSound(g)
    && KeyIndexComplete(g)
    && ProcIndexExact(g)
    && Allocated(g)
    && NoDanglingEdges(g)
  }

  /** At most one vertex object per key. */
  ghost predicate KeysUnique(g: Graph)
  {
    forall v, w :: v in g.vertices && w in g.vertices && v.key == w.key ==> v == w
  }

  /**
   * What only ever grows: the vertex set, the edge sequence (by appending),
   * the allocation counter, the keys of procTblXref, and each procedure's set
   * in procXref once created.
   */
  ghost predicate Grows(g: Graph, r: Graph)
  {
    && g.vertices <= r.vertices
    && g.edges <= r.edges
    && g.nextId <= r.nextId
    && g.procTblXref.Keys <= r.procTblXref.Keys
    && (forall p :: p in g.procXref ==> p in r.procXref && g.procXref[p] <= r.procXref[p])
  }

  /** The graph right after construction, before any procedure is populated. */
  function Empty(): (g: Graph)
    ensures Valid(g) && KeysUnique(g)
    ensures g.vertices == {} && g.edges == []
  {
    Graph({}, [], map[], map[], 0)
  }

  /** The set procXref holds for p, with a missing entry read as empty. */
  function ProcVertices(g: Graph, p: Procedure): set<Vertex>
  {
    if p in g.procXref then g.procXref[p] else {}
  }

  /** getVertex(proc, tbl): the vertex stored under (proc, tbl), or none. */
  function GetVertex(g: Graph, p: Procedure, t: Table): (r: Option<Vertex>)
    ensures r.Some? <==> Key(p, t) in g.procTblXref
    ensures r.Some? ==> r.value == g.procTblXref[Key(p, t)]
    ensures Valid(g) ==> (r.Some? <==> exists v :: v in g.vertices && v.key == Key(p, t))
    ensures Valid(g) && r.Some? ==> r.value in g.vertices && r.value.key == Key(p, t)
  {
    if Key(p, t) in g.procTblXref then Some(g.procTblXref[Key(p, t)]) else None
  }

  /**
   * addVertex(v): when the library accepts v, record it under its key in
   * procTblXref (replacing any earlier entry) and in its procedure's set in
   * procXref (creating that set on first use). When it refuses v, neither
   * index changes.
   */
  function AddVertex(g: Graph, v: Vertex): (r: Added)
    ensures r.added <==> v !in g.vertices
    ensures !r.added ==> r.graph == g
    ensures r.added ==> r.graph.vertices == g.vertices + {v} && r.graph.edges == g.edges && r.graph.nextId == g.nextId
    ensures r.added ==> r.graph.procTblXref == g.procTblXref[v.key := v]
    ensures r.added ==> r.graph.procXref == g.procXref[v.key.proc := ProcVertices(g, v.key.proc) + {v}]
  {
    if v in g.vertices then
      Added(g, false)
    else
      var p := v.key.proc;
      Added(g.(vertices := g.vertices + {v},
               procTblXref := g.procTblXref[v.key := v],
               procXref := g.procXref[p := ProcVertices(g, p) + {v}]), true)
  }

  /** addVertex keeps every index invariant, for a vertex allocated before. */
  lemma AddVertexKeepsValid(g: Graph, v: Vertex)
    requires Valid(g) && v.id < g.nextId
    ensures Valid(AddVertex(g, v).graph)
    ensures Grows(g, AddVertex(g, v).graph)
  {
    var r := AddVertex(g, v).graph;
    if v !in g.vertices {
      assert KeyIndexSound(r);
      assert ProcIndexExact(r);
    }
  }

  /** `new Vertex(proc, tbl)`: a vertex object with a never-used identity. */
  function NewVertex(g: Graph, k: Key): (r: Fetched)
    ensures r.vertex.key == k
    ensures r.graph == g.(nextId := g.nextId + 1)
    ensures Valid(g) ==> r.vertex !in g.vertices && Valid(r.graph)
  {
    Fetched(g.(nextId := g.nextId + 1), Vertex(g.nextId, k))
  }

  /**
   * The get-or-create idiom: reuse the vertex stored under (p, t), or make a
   * new vertex object; in both cases the graph's vertices are untouched.
   */
  function GetOrNew(g: Graph, p: Procedure, t: Table): (r: Fetched)
    ensures Key(p, t) in g.procTblXref ==> r.graph == g && r.vertex == g.procTblXref[Key(p, t)]
    ensures Key(p, t) !in g.procTblXref ==> r.graph == g.(nextId := g.nextId + 1) && r.vertex == Vertex(g.nextId, Key(p, t))
  {
    match GetVertex(g, p, t)
    case Some(v) => Fetched(g, v)
    case None => NewVertex(g, Key(p, t))
  }

  /**
   * In a valid graph, get-or-create answers a vertex with the asked key,
   * already in the graph exactly when the key is indexed, and otherwise
   * brand new.
   */
  lemma GetOrNewFacts(g: Graph, p: Procedure, t: Table)
    requires Valid(g)
    ensures var r := GetOrNew(g, p, t);
      && r.vertex.key == Key(p, t)
      && Valid(r.graph) && Grows(g, r.graph)
      && r.vertex.id < r.graph.nextId
      && (r.vertex in g.vertices <==> Key(p, t) in g.procTblXref)
      && (r.vertex !in g.vertices ==> g.nextId <= r.vertex.id)
  {
  }

  /** addEdge(e, v0, v1) with e labelled (s0, s1). */
  function AddEdge(g: Graph, s0: Statement, s1: Statement, v0: Vertex, v1: Vertex): (r: Graph)
    ensures r.edges == g.edges + [Edge(s0, s1, v0, v1)]
    ensures r.vertices == g.vertices + {v0, v1}
    ensures r.nextId == g.nextId
    ensures v0 in g.vertices && v1 in g.vertices ==> r.procTblXref == g.procTblXref && r.procXref == g.procXref
    ensures v1 !in g.vertices ==> v1.key in r.procTblXref && r.procTblXref[v1.key] == v1
  {
    var a := AddVertex(g, v0).graph;
    var b := AddVertex(a, v1).graph;
    b.(edges := b.edges + [Edge(s0, s1, v0, v1)])
  }

  /** addEdge keeps every invariant, for endpoints allocated before. */
  lemma AddEdgeKeepsValid(g: Graph, s0: Statement, s1: Statement, v0: Vertex, v1: Vertex)
    requires Valid(g) && v0.id < g.nextId && v1.id < g.nextId
    ensures Valid(AddEdge(g, s0, s1, v0, v1))
    ensures Grows(g, AddEdge(g, s0, s1, v0, v1))
  {
    var a := AddVertex(g, v0).graph;
    AddVertexKeepsValid(g, v0);
    var b := AddVertex(a, v1).graph;
    AddVertexKeepsValid(a, v1);
    AppendEdgeKeepsValid(b, Edge(s0, s1, v0, v1));
    assert Grows(g, b);
  }

  /** Appending an edge whose endpoints are vertices keeps every invariant. */
  lemma AppendEdgeKeepsValid(g: Graph, e: Edge)
    requires Valid(g) && e.source in g.vertices && e.target in g.vertices
    ensures Valid(g.(edges := g.edges + [e]))
  {
    var r := g.(edges := g.edges + [e]);
    forall i | 0 <= i < |r.edges|
      ensures r.edges[i].source in r.vertices && r.edges[i].target in r.vertices
    {
      if i < |g.edges| {
        assert r.edges[i] == g.edges[i];
      }
    }
  }
}
