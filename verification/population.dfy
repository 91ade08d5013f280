/**
 * Population of the DumpGraph: populateProcedure for one procedure, and the
 * constructor that populates every catalog procedure in order.
 *
 * Each added edge is summarised by its signature (statement pair, source
 * key, target key). The signatures the builder must produce are given by an
 * independent reference definition (PairSigs, ProcedureSigs, CatalogSigs),
 * and the folds are proved to produce exactly those, in order.
 */
module Population {
  import opened Catalog
  import opened DumpGraph

  /** What an edge says: its statement pair and the keys of its endpoints. */
  datatype EdgeSig = EdgeSig(stmt0: Statement, stmt1: Statement, from: Key, to: Key)

  function Sig(e: Edge): EdgeSig
  {
    EdgeSig(e.stmt0, e.stmt1, e.source.key, e.target.key)
  }

  function Sigs(es: seq<Edge>): seq<EdgeSig>
  {
    seq(|es|, i requires 0 <= i < |es| => Sig(es[i]))
  }

  // ---------------------------------------------------------------------------
  // Reference definition of the edges population must add
  // ---------------------------------------------------------------------------

  /** The edge for conflict pair cp of procedure proc0 on table t. */
  function TableSig(proc0: Procedure, cp: ConflictPair, t: Table): EdgeSig
  {
    EdgeSig(cp.stmt0, cp.stmt1, Key(proc0, t), Key(cp.stmt1.parent, t))
  }

  /** One edge per table, in the order the tables are listed. */
  function PairSigs(proc0: Procedure, cp: ConflictPair, tables: seq<Table>): seq<EdgeSig>
  {
    if tables == [] then [] else [TableSig(proc0, cp, tables[0])] + PairSigs(proc0, cp, tables[1..])
  }

  /** The edges of all pairs, pair after pair, each fanned out over stmt0's tables. */
  function ProcedureSigs(o: Oracle, proc0: Procedure, pairs: seq<ConflictPair>): seq<EdgeSig>
  {
    if pairs == [] then []
    else PairSigs(proc0, pairs[0], ReferencedTables(o, pairs[0].stmt0)) + ProcedureSigs(o, proc0, pairs[1..])
  }

  /** The edges of all procedures, procedure after procedure. */
  function CatalogSigs(o: Oracle, procs: seq<Procedure>): seq<EdgeSig>
  {
    if procs == [] then []
    else ProcedureSigs(o, procs[0], ConflictPairsOf(o, procs[0])) + CatalogSigs(o, procs[1..])
  }

  /** The sum over pairs of the number of tables stmt0 references. */
  function FanOut(o: Oracle, pairs: seq<ConflictPair>): nat
  {
    if pairs == [] then 0 else |ReferencedTables(o, pairs[0].stmt0)| + FanOut(o, pairs[1..])
  }

  /** FanOut summed over the procedures' conflict pairs. */
  function TotalFanOut(o: Oracle, procs: seq<Procedure>): nat
  {
    if procs == [] then 0 else FanOut(o, ConflictPairsOf(o, procs[0])) + TotalFanOut(o, procs[1..])
  }

  /** Every key an edge signature mentions. */
  function Endpoints(sigs: seq<EdgeSig>): set<Key>
  {
    (set i | 0 <= i < |sigs| :: sigs[i].from) + (set i | 0 <= i < |sigs| :: sigs[i].to)
  }

  /** The keys of the graph's vertices. */
  function VertexKeys(g: Graph): set<Key>
  {
    set v | v in g.vertices :: v.key
  }

  /** A conflict pair whose second statement belongs to proc0 itself. */
  predicate SelfConflict(proc0: Procedure, cp: ConflictPair)
  {
    cp.stmt1.parent == proc0
  }

  // ---------------------------------------------------------------------------
  // The builder
  // ---------------------------------------------------------------------------

  /**
   * One iteration of the inner loop of populateProcedure: look up or create
   * v0 for (proc0, t), then v1 for (parent of stmt1, t), then add the edge.
   * v1 is looked up before v0 is added to the graph, so when both keys are
   * the same and new, v1 is a second new object.
   */
  function AddConflictEdge(g: Graph, proc0: Procedure, cp: ConflictPair, t: Table): (r: Graph)
    ensures |r.edges| == |g.edges| + 1 && g.edges <= r.edges
    ensures r.edges[|g.edges|].stmt0 == cp.stmt0 && r.edges[|g.edges|].stmt1 == cp.stmt1
    ensures r.vertices == g.vertices + {r.edges[|g.edges|].source, r.edges[|g.edges|].target}
    ensures Key(proc0, t) in g.procTblXref ==> r.edges[|g.edges|].source == g.procTblXref[Key(proc0, t)]
    ensures Key(proc0, t) !in g.procTblXref ==> r.edges[|g.edges|].source == Vertex(g.nextId, Key(proc0, t))
    ensures Key(cp.stmt1.parent, t) in g.procTblXref ==> r.edges[|g.edges|].target == g.procTblXref[Key(cp.stmt1.parent, t)]
    ensures Key(cp.stmt1.parent, t) !in g.procTblXref ==>
      r.edges[|g.edges|].target == Vertex(if Key(proc0, t) in g.procTblXref then g.nextId else g.nextId + 1, Key(cp.stmt1.parent, t))
    ensures Key(proc0, t) in g.procTblXref && Key(cp.stmt1.parent, t) in g.procTblXref ==> r.nextId == g.nextId
  {
    var f0 := GetOrNew(g, proc0, t);
    var f1 := GetOrNew(f0.graph, cp.stmt1.parent, t);
    AddEdge(f1.graph, cp.stmt0, cp.stmt1, f0.vertex, f1.vertex)
  }

  /**
   * In a valid graph the step keeps every invariant and appends exactly the
   * reference edge for (cp, t).
   */
  lemma AddConflictEdgeKeepsValid(g: Graph, proc0: Procedure, cp: ConflictPair, t: Table)
    ensures var r := AddConflictEdge(g, proc0, cp, t);
      Valid(g) ==> Valid(r) && Grows(g, r) && Sigs(r.edges) == Sigs(g.edges) + [TableSig(proc0, cp, t)]
  {
    if Valid(g) {
      var f0 := GetOrNew(g, proc0, t);
      GetOrNewFacts(g, proc0, t);
      var f1 := GetOrNew(f0.graph, cp.stmt1.parent, t);
      GetOrNewFacts(f0.graph, cp.stmt1.parent, t);
      AddEdgeKeepsValid(f1.graph, cp.stmt0, cp.stmt1, f0.vertex, f1.vertex);
      GrowsTransitive(g, f0.graph, f1.graph);
      GrowsTransitive(g, f1.graph, AddConflictEdge(g, proc0, cp, t));
      SigsAppend(f1.graph.edges, Edge(cp.stmt0, cp.stmt1, f0.vertex, f1.vertex));
    }
  }

  /** The inner loop of populateProcedure: one edge per referenced table. */
  function AddPairEdges(g: Graph, proc0: Procedure, cp: ConflictPair, tables: seq<Table>): (r: Graph)
    ensures |r.edges| == |g.edges| + |tables| && g.edges <= r.edges
    ensures Valid(g) ==> Valid(r) && Grows(g, r) && Sigs(r.edges) == Sigs(g.edges) + PairSigs(proc0, cp, tables)
    decreases |tables|
  {
    if tables == [] then g
    else
      var g1 := AddConflictEdge(g, proc0, cp, tables[0]);
      AddConflictEdgeKeepsValid(g, proc0, cp, tables[0]);
      var r := AddPairEdges(g1, proc0, cp, tables[1..]);
      GrowsTransitive(g, g1, r);
      assert Valid(g) ==> Sigs(r.edges) == Sigs(g.edges) + PairSigs(proc0, cp, tables) by {
        if Valid(g) {
          var a, x, b := Sigs(g.edges), TableSig(proc0, cp, tables[0]), PairSigs(proc0, cp, tables[1..]);
          assert PairSigs(proc0, cp, tables) == [x] + b;
          assert Sigs(r.edges) == (a + [x]) + b;
          ConcatAssoc(a, [x], b);
        }
      }
      r
  }

  /** The outer loop of populateProcedure, over the given conflict pairs. */
  function AddPairs(g: Graph, o: Oracle, proc0: Procedure, pairs: seq<ConflictPair>): (r: Graph)
    ensures |r.edges| == |g.edges| + FanOut(o, pairs) && g.edges <= r.edges
    ensures Valid(g) ==> Valid(r) && Grows(g, r) && Sigs(r.edges) == Sigs(g.edges) + ProcedureSigs(o, proc0, pairs)
    decreases |pairs|
  {
    if pairs == [] then g
    else
      var g1 := AddPairEdges(g, proc0, pairs[0], ReferencedTables(o, pairs[0].stmt0));
      var r := AddPairs(g1, o, proc0, pairs[1..]);
      GrowsTransitive(g, g1, r);
      ConcatAssoc(Sigs(g.edges), PairSigs(proc0, pairs[0], ReferencedTables(o, pairs[0].stmt0)), ProcedureSigs(o, proc0, pairs[1..]));
      r
  }

  /** populateProcedure(proc0). */
  function PopulateProcedure(g: Graph, o: Oracle, proc0: Procedure): (r: Graph)
    ensures |r.edges| == |g.edges| + FanOut(o, ConflictPairsOf(o, proc0)) && g.edges <= r.edges
    ensures Valid(g) ==> Valid(r) && Grows(g, r) && Sigs(r.edges) == Sigs(g.edges) + ProcedureSigs(o, proc0, ConflictPairsOf(o, proc0))
  {
    AddPairs(g, o, proc0, ConflictPairsOf(o, proc0))
  }

  /** The constructor's loop: populate each procedure in catalog order. */
  function PopulateAll(g: Graph, o: Oracle, procs: seq<Procedure>): (r: Graph)
    ensures |r.edges| == |g.edges| + TotalFanOut(o, procs) && g.edges <= r.edges
    ensures Valid(g) ==> Valid(r) && Grows(g, r) && Sigs(r.edges) == Sigs(g.edges) + CatalogSigs(o, procs)
    decreases |procs|
  {
    if procs == [] then g
    else
      var g1 := PopulateProcedure(g, o, procs[0]);
      var r := PopulateAll(g1, o, procs[1..]);
      GrowsTransitive(g, g1, r);
      ConcatAssoc(Sigs(g.edges), ProcedureSigs(o, procs[0], ConflictPairsOf(o, procs[0])), CatalogSigs(o, procs[1..]));
      r
  }

  /** The DumpGraph constructor over the catalog's procedures. */
  function Build(o: Oracle, procs: seq<Procedure>): (r: Graph)
    ensures Valid(r)
    ensures Sigs(r.edges) == CatalogSigs(o, procs)
    ensures |r.edges| == TotalFanOut(o, procs)
  {
    PopulateAll(Empty(), o, procs)
  }

  // ---------------------------------------------------------------------------
  // Helpers
  // ---------------------------------------------------------------------------

  lemma GrowsTransitive(a: Graph, b: Graph, c: Graph)
    ensures Grows(a, b) && Grows(b, c) ==> Grows(a, c)
  {
  }

  lemma ConcatAssoc<T>(a: seq<T>, b: seq<T>, c: seq<T>)
    ensures (a + b) + c == a + (b + c)
  {
  }

  lemma SigsAppend(es: seq<Edge>, e: Edge)
    ensures Sigs(es + [e]) == Sigs(es) + [Sig(e)]
  {
  }
}
