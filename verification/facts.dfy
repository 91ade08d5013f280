/**
 * Properties of the DumpGraph builder: index maintenance, get-or-create
 * reuse, per-table fan-out, multi-edge preservation, what the finished
 * graph contains, and exactly when one key ends up with two vertex objects.
 */
module GraphFacts {
  import opened Optional
  import opened Catalog
  import opened DumpGraph
  import opened Population

  // ---------------------------------------------------------------------------
  // Index maintenance
  // ---------------------------------------------------------------------------

  /** After a successful addVertex, getVertex answers the new vertex and its procedure's set holds it. */
  lemma AddVertexIndexed(g: Graph, v: Vertex)
    requires Valid(g) && v.id < g.nextId && v !in g.vertices
    ensures var r := AddVertex(g, v);
      && r.added
      && GetVertex(r.graph, v.key.proc, v.key.table) == Some(v)
      && v in ProcVertices(r.graph, v.key.proc)
      && (forall k :: k != v.key ==> GetVertex(r.graph, k.proc, k.table) == GetVertex(g, k.proc, k.table))
  {
  }

  /** With one vertex object per key, procTblXref names every vertex and nothing else. */
  lemma UniqueKeysIndexExact(g: Graph)
    requires Valid(g) && KeysUnique(g)
    ensures forall v :: v in g.vertices ==> v.key in g.procTblXref && g.procTblXref[v.key] == v
    ensures g.procTblXref.Values == g.vertices
  {
    forall v | v in g.vertices
      ensures g.procTblXref[v.key] == v
    {
      assert g.procTblXref[v.key] in g.vertices;
    }
    assert g.procTblXref.Values <= g.vertices by {
      forall w | w in g.procTblXref.Values
        ensures w in g.vertices
      {
        var k :| k in g.procTblXref && g.procTblXref[k] == w;
      }
    }
  }

  /** The keys of procTblXref are exactly the keys of the vertices. */
  lemma KeyIndexMatchesVertices(g: Graph)
    requires Valid(g)
    ensures g.procTblXref.Keys == VertexKeys(g)
  {
    forall k | k in g.procTblXref
      ensures k in VertexKeys(g)
    {
      assert g.procTblXref[k] in g.vertices;
    }
  }

  // ---------------------------------------------------------------------------
  // One iteration of the inner loop
  // ---------------------------------------------------------------------------

  /**
   * A vertex the step adds is a new object for one of the edge's two keys,
   * a key the graph did not have, and was not allocated before.
   */
  lemma AddConflictEdgeFresh(g: Graph, proc0: Procedure, cp: ConflictPair, t: Table)
    requires Valid(g)
    ensures var r := AddConflictEdge(g, proc0, cp, t);
      var e := r.edges[|g.edges|];
      forall v :: v in r.vertices && v !in g.vertices ==>
        && (v == e.source || v == e.target)
        && v.key !in g.procTblXref
        && g.nextId <= v.id
  {
    var f0 := GetOrNew(g, proc0, t);
    GetOrNewFacts(g, proc0, t);
    var f1 := GetOrNew(f0.graph, cp.stmt1.parent, t);
    GetOrNewFacts(f0.graph, cp.stmt1.parent, t);
    assert f0.graph.vertices == g.vertices && f0.graph.procTblXref == g.procTblXref;
    var r := AddConflictEdge(g, proc0, cp, t);
    assert r.edges[|g.edges|] == Edge(cp.stmt0, cp.stmt1, f0.vertex, f1.vertex);
  }

  /** The endpoints of the step's edge carry the keys (proc0, t) and (parent of stmt1, t). */
  lemma AddConflictEdgeEndpoints(g: Graph, proc0: Procedure, cp: ConflictPair, t: Table)
    requires Valid(g)
    ensures var r := AddConflictEdge(g, proc0, cp, t);
      && r.edges[|g.edges|].source.key == Key(proc0, t)
      && r.edges[|g.edges|].target.key == Key(cp.stmt1.parent, t)
  {
  }

  /** The step adds the keys of its edge's two endpoints to the graph's keys. */
  lemma AddConflictEdgeKeys(g: Graph, proc0: Procedure, cp: ConflictPair, t: Table)
    requires Valid(g)
    ensures VertexKeys(AddConflictEdge(g, proc0, cp, t)) == VertexKeys(g) + {Key(proc0, t), Key(cp.stmt1.parent, t)}
  {
    AddConflictEdgeEndpoints(g, proc0, cp, t);
  }

  /**
   * A self-conflict on a key the graph does not have yet: v1 is looked up
   * before v0 is added, so two vertex objects with the same key are created,
   * both end up in the graph, and procTblXref keeps only the second one.
   */
  lemma FreshSelfConflictDuplicates(g: Graph, proc0: Procedure, cp: ConflictPair, t: Table)
    requires Valid(g) && SelfConflict(proc0, cp) && Key(proc0, t) !in g.procTblXref
    ensures var r := AddConflictEdge(g, proc0, cp, t);
      var e := r.edges[|g.edges|];
      && e.source != e.target
      && e.source.key == Key(proc0, t) && e.target.key == Key(proc0, t)
      && e.source in r.vertices && e.target in r.vertices
      && r.procTblXref[Key(proc0, t)] == e.target
      && e.source !in r.procTblXref.Values
      && !KeysUnique(r)
  {
    var k := Key(proc0, t);
    var v0, v1 := Vertex(g.nextId, k), Vertex(g.nextId + 1, k);
    var f0 := GetOrNew(g, proc0, t);
    var f1 := GetOrNew(f0.graph, cp.stmt1.parent, t);
    assert f0.vertex == v0 && f1.vertex == v1;
    assert v0 !in g.vertices && v1 !in g.vertices;
    var a := AddVertex(f1.graph, v0).graph;
    assert a.procTblXref == g.procTblXref[k := v0];
    var b := AddVertex(a, v1).graph;
    assert b.procTblXref == g.procTblXref[k := v1];
    var r := AddConflictEdge(g, proc0, cp, t);
    assert r.procTblXref == b.procTblXref;
    forall k' | k' in r.procTblXref
      ensures r.procTblXref[k'] != v0
    {
      if k' != k {
        assert r.procTblXref[k'] in g.vertices;
      }
    }
  }

  /**
   * Starting from one vertex object per key, the step keeps it so exactly
   * when it is not a self-conflict on a key the graph does not have yet.
   */
  lemma AddConflictEdgeKeysUnique(g: Graph, proc0: Procedure, cp: ConflictPair, t: Table)
    requires Valid(g) && KeysUnique(g)
    ensures KeysUnique(AddConflictEdge(g, proc0, cp, t))
        <==> !(SelfConflict(proc0, cp) && Key(proc0, t) !in g.procTblXref)
  {
    var r := AddConflictEdge(g, proc0, cp, t);
    if SelfConflict(proc0, cp) && Key(proc0, t) !in g.procTblXref {
      FreshSelfConflictDuplicates(g, proc0, cp, t);
    } else {
      AddConflictEdgeEndpoints(g, proc0, cp, t);
      AddConflictEdgeFresh(g, proc0, cp, t);
      assert KeyIndexComplete(g);
    }
  }

  // ---------------------------------------------------------------------------
  // Fan-out and multi-edges
  // ---------------------------------------------------------------------------

  /** PairSigs lists one edge per table, position by position. */
  lemma {:induction false} PairSigsShape(proc0: Procedure, cp: ConflictPair, tables: seq<Table>)
    ensures |PairSigs(proc0, cp, tables)| == |tables|
    ensures forall i :: 0 <= i < |tables| ==> PairSigs(proc0, cp, tables)[i] == TableSig(proc0, cp, tables[i])
    decreases |tables|
  {
    if tables != [] {
      PairSigsShape(proc0, cp, tables[1..]);
      forall i | 0 <= i < |tables|
        ensures PairSigs(proc0, cp, tables)[i] == TableSig(proc0, cp, tables[i])
      {
        if i > 0 {
          assert PairSigs(proc0, cp, tables)[i] == PairSigs(proc0, cp, tables[1..])[i - 1];
        }
      }
    }
  }

  /** A pair whose first statement references no table adds nothing at all. */
  lemma NoTablesNoEdges(g: Graph, o: Oracle, proc0: Procedure, cp: ConflictPair)
    requires ReferencedTables(o, cp.stmt0) == []
    ensures AddPairs(g, o, proc0, [cp]) == g
  {
    assert [cp][1..] == [];
  }

  /**
   * The same conflict pair seen twice yields its edges twice: edges are
   * never merged, whatever their labels.
   */
  lemma RepeatedPairNotMerged(g: Graph, o: Oracle, proc0: Procedure, cp: ConflictPair)
    requires Valid(g)
    ensures var r := AddPairs(g, o, proc0, [cp, cp]);
      var added := PairSigs(proc0, cp, ReferencedTables(o, cp.stmt0));
      && |r.edges| == |g.edges| + 2 * |ReferencedTables(o, cp.stmt0)|
      && Sigs(r.edges) == Sigs(g.edges) + added + added
  {
    var tables := ReferencedTables(o, cp.stmt0);
    var g1 := AddPairEdges(g, proc0, cp, tables);
    assert [cp, cp][1..] == [cp];
    AddPairsStep(g, o, proc0, [cp, cp]);
    OnePairIsItsTableLoop(g1, o, proc0, cp);
    TableLoopTwice(g, proc0, cp, tables);
  }

  /** Running a pair's table loop twice appends its edges twice. */
  lemma TableLoopTwice(g: Graph, proc0: Procedure, cp: ConflictPair, tables: seq<Table>)
    requires Valid(g)
    ensures var r := AddPairEdges(AddPairEdges(g, proc0, cp, tables), proc0, cp, tables);
      && |r.edges| == |g.edges| + 2 * |tables|
      && Sigs(r.edges) == Sigs(g.edges) + PairSigs(proc0, cp, tables) + PairSigs(proc0, cp, tables)
  {
    var g1 := AddPairEdges(g, proc0, cp, tables);
    assert Valid(g1);
  }

  /** The pair loop runs the first pair's table loop and then the rest. */
  lemma AddPairsStep(g: Graph, o: Oracle, proc0: Procedure, pairs: seq<ConflictPair>)
    requires pairs != []
    ensures AddPairs(g, o, proc0, pairs)
      == AddPairs(AddPairEdges(g, proc0, pairs[0], ReferencedTables(o, pairs[0].stmt0)), o, proc0, pairs[1..])
  {
  }

  /** Populating a single pair is the table loop of that pair. */
  lemma OnePairIsItsTableLoop(g: Graph, o: Oracle, proc0: Procedure, cp: ConflictPair)
    ensures AddPairs(g, o, proc0, [cp]) == AddPairEdges(g, proc0, cp, ReferencedTables(o, cp.stmt0))
  {
    assert [cp][1..] == [];
  }

  // ---------------------------------------------------------------------------
  // Contributions compose by concatenation
  // ---------------------------------------------------------------------------

  /** The reference edges of two runs of procedures are the two lists concatenated. */
  lemma {:induction false} CatalogSigsAppend(o: Oracle, ps: seq<Procedure>, qs: seq<Procedure>)
    ensures CatalogSigs(o, ps + qs) == CatalogSigs(o, ps) + CatalogSigs(o, qs)
    decreases |ps|
  {
    if ps == [] {
      assert ps + qs == qs;
    } else {
      assert (ps + qs)[1..] == ps[1..] + qs;
      CatalogSigsAppend(o, ps[1..], qs);
    }
  }

  /** Populating ps and then qs is populating ps + qs: the constructor is a left fold. */
  lemma {:induction false} PopulateAllAppend(g: Graph, o: Oracle, ps: seq<Procedure>, qs: seq<Procedure>)
    ensures PopulateAll(g, o, ps + qs) == PopulateAll(PopulateAll(g, o, ps), o, qs)
    decreases |ps|
  {
    if ps == [] {
      assert ps + qs == qs;
    } else {
      assert (ps + qs)[1..] == ps[1..] + qs;
      PopulateAllAppend(PopulateProcedure(g, o, ps[0]), o, ps[1..], qs);
    }
  }

  /** The built graph's edges are each procedure's contribution, concatenated in catalog order. */
  lemma BuildIsConcatenation(o: Oracle, ps: seq<Procedure>, qs: seq<Procedure>)
    ensures Sigs(Build(o, ps + qs).edges) == Sigs(Build(o, ps).edges) + CatalogSigs(o, qs)
    ensures Build(o, ps).edges <= Build(o, ps + qs).edges
  {
    CatalogSigsAppend(o, ps, qs);
    PopulateAllAppend(Empty(), o, ps, qs);
  }

  // ---------------------------------------------------------------------------
  // What the finished graph holds
  // ---------------------------------------------------------------------------

  /** The edges a procedure's conflict pair on table t yields, read off the reference. */
  ghost predicate FromPairOf(o: Oracle, proc0: Procedure, s: EdgeSig)
  {
    exists cp :: cp in ConflictPairsOf(o, proc0) && s == TableSig(proc0, cp, s.from.table) && s.from.table in ReferencedTables(o, cp.stmt0)
  }

  lemma {:induction false} PairSigsMembers(proc0: Procedure, cp: ConflictPair, tables: seq<Table>, s: EdgeSig)
    ensures s in PairSigs(proc0, cp, tables) <==> s == TableSig(proc0, cp, s.from.table) && s.from.table in tables
    decreases |tables|
  {
    if tables != [] {
      PairSigsMembers(proc0, cp, tables[1..], s);
      assert tables == [tables[0]] + tables[1..];
    }
  }

  lemma {:induction false} ProcedureSigsMembers(o: Oracle, proc0: Procedure, pairs: seq<ConflictPair>, s: EdgeSig)
    ensures s in ProcedureSigs(o, proc0, pairs) <==>
      exists cp :: cp in pairs && s == TableSig(proc0, cp, s.from.table) && s.from.table in ReferencedTables(o, cp.stmt0)
    decreases |pairs|
  {
    if pairs != [] {
      ProcedureSigsMembers(o, proc0, pairs[1..], s);
      PairSigsMembers(proc0, pairs[0], ReferencedTables(o, pairs[0].stmt0), s);
      assert pairs == [pairs[0]] + pairs[1..];
    }
  }

  /**
   * An edge signature is in the reference exactly when its source procedure
   * is a catalog procedure that reports a conflict pair with these two
   * statements, and its table is one the first statement references.
   */
  lemma {:induction false} CatalogSigsMembers(o: Oracle, procs: seq<Procedure>, s: EdgeSig)
    ensures s in CatalogSigs(o, procs) <==> s.from.proc in procs && FromPairOf(o, s.from.proc, s)
    decreases |procs|
  {
    if procs != [] {
      CatalogSigsMembers(o, procs[1..], s);
      ProcedureSigsMembers(o, procs[0], ConflictPairsOf(o, procs[0]), s);
      assert procs == [procs[0]] + procs[1..];
      if s in ProcedureSigs(o, procs[0], ConflictPairsOf(o, procs[0])) {
        var cp :| cp in ConflictPairsOf(o, procs[0]) && s == TableSig(procs[0], cp, s.from.table);
        assert s.from.proc == procs[0];
      }
    }
  }

  /** The i-th signature is the signature of the i-th edge. */
  lemma SigsIndex(es: seq<Edge>, i: int)
    requires 0 <= i < |es|
    ensures Sigs(es)[i] == Sig(es[i])
  {
  }

  /**
   * Every edge of the built graph comes from a conflict pair (stmt0, stmt1)
   * of some catalog procedure proc0 and a table tbl that stmt0 references,
   * and goes from a (proc0, tbl) vertex to a (parent of stmt1, tbl) vertex.
   * Conversely every such combination is the signature of some edge.
   */
  lemma BuildEdgesFromConflicts(o: Oracle, procs: seq<Procedure>)
    ensures var r := Build(o, procs);
      forall i :: 0 <= i < |r.edges| ==>
        && r.edges[i].source.key.table == r.edges[i].target.key.table
        && r.edges[i].target.key.proc == r.edges[i].stmt1.parent
        && r.edges[i].source.key.proc in procs
        && FromPairOf(o, r.edges[i].source.key.proc, Sig(r.edges[i]))
    ensures var r := Build(o, procs);
      forall s: EdgeSig :: s.from.proc in procs && FromPairOf(o, s.from.proc, s) ==> exists i :: 0 <= i < |r.edges| && Sig(r.edges[i]) == s
  {
    var r := Build(o, procs);
    forall i | 0 <= i < |r.edges|
      ensures r.edges[i].source.key.table == r.edges[i].target.key.table
      ensures r.edges[i].target.key.proc == r.edges[i].stmt1.parent
      ensures r.edges[i].source.key.proc in procs
      ensures FromPairOf(o, r.edges[i].source.key.proc, Sig(r.edges[i]))
    {
      SigsIndex(r.edges, i);
      var s := Sig(r.edges[i]);
      assert s in CatalogSigs(o, procs);
      CatalogSigsMembers(o, procs, s);
      var cp :| cp in ConflictPairsOf(o, s.from.proc) && s == TableSig(s.from.proc, cp, s.from.table);
    }
    forall s: EdgeSig | s.from.proc in procs && FromPairOf(o, s.from.proc, s)
      ensures exists i :: 0 <= i < |r.edges| && Sig(r.edges[i]) == s
    {
      CatalogSigsMembers(o, procs, s);
      var i :| 0 <= i < |CatalogSigs(o, procs)| && CatalogSigs(o, procs)[i] == s;
      SigsIndex(r.edges, i);
    }
  }

  // ---------------------------------------------------------------------------
  // Which (procedure, table) keys the finished graph has
  // ---------------------------------------------------------------------------

  lemma EndpointsAppend(a: seq<EdgeSig>, b: seq<EdgeSig>)
    ensures Endpoints(a + b) == Endpoints(a) + Endpoints(b)
  {
    var c := a + b;
    forall k | k in Endpoints(c)
      ensures k in Endpoints(a) + Endpoints(b)
    {
      var i :| 0 <= i < |c| && (c[i].from == k || c[i].to == k);
      if i >= |a| {
        assert b[i - |a|] == c[i];
      }
    }
    forall k | k in Endpoints(b)
      ensures k in Endpoints(c)
    {
      var i :| 0 <= i < |b| && (b[i].from == k || b[i].to == k);
      assert c[i + |a|] == b[i];
    }
    forall k | k in Endpoints(a)
      ensures k in Endpoints(c)
    {
      var i :| 0 <= i < |a| && (a[i].from == k || a[i].to == k);
      assert c[i] == a[i];
    }
  }

  lemma UnionShift<T>(a: set<T>, b: set<T>, c: set<T>, mid: set<T>, last: set<T>)
    requires mid == a + b && last == mid + c
    ensures last == a + (b + c)
  {
  }

  lemma EndpointsSingle(x: EdgeSig)
    ensures Endpoints([x]) == {x.from, x.to}
  {
    assert [x][0] == x;
  }

  lemma {:induction false} AddPairEdgesKeys(g: Graph, proc0: Procedure, cp: ConflictPair, tables: seq<Table>)
    requires Valid(g)
    ensures VertexKeys(AddPairEdges(g, proc0, cp, tables)) == VertexKeys(g) + Endpoints(PairSigs(proc0, cp, tables))
    decreases |tables|
  {
    if tables == [] {
      assert Endpoints([]) == {};
    } else {
      var x, rest := TableSig(proc0, cp, tables[0]), PairSigs(proc0, cp, tables[1..]);
      var g1 := AddConflictEdge(g, proc0, cp, tables[0]);
      AddConflictEdgeKeepsValid(g, proc0, cp, tables[0]);
      AddConflictEdgeKeys(g, proc0, cp, tables[0]);
      AddPairEdgesKeys(g1, proc0, cp, tables[1..]);
      EndpointsAppend([x], rest);
      EndpointsSingle(x);
      UnionShift(VertexKeys(g), Endpoints([x]), Endpoints(rest), VertexKeys(g1), VertexKeys(AddPairEdges(g1, proc0, cp, tables[1..])));
    }
  }

  lemma {:induction false} AddPairsKeys(g: Graph, o: Oracle, proc0: Procedure, pairs: seq<ConflictPair>)
    requires Valid(g)
    ensures VertexKeys(AddPairs(g, o, proc0, pairs)) == VertexKeys(g) + Endpoints(ProcedureSigs(o, proc0, pairs))
    decreases |pairs|
  {
    if pairs == [] {
      assert Endpoints([]) == {};
    } else {
      var tables := ReferencedTables(o, pairs[0].stmt0);
      var g1 := AddPairEdges(g, proc0, pairs[0], tables);
      AddPairEdgesKeys(g, proc0, pairs[0], tables);
      AddPairsKeys(g1, o, proc0, pairs[1..]);
      EndpointsAppend(PairSigs(proc0, pairs[0], tables), ProcedureSigs(o, proc0, pairs[1..]));
      UnionShift(VertexKeys(g), Endpoints(PairSigs(proc0, pairs[0], tables)), Endpoints(ProcedureSigs(o, proc0, pairs[1..])),
        VertexKeys(g1), VertexKeys(AddPairs(g1, o, proc0, pairs[1..])));
    }
  }

  lemma {:induction false} PopulateAllKeys(g: Graph, o: Oracle, procs: seq<Procedure>)
    requires Valid(g)
    ensures VertexKeys(PopulateAll(g, o, procs)) == VertexKeys(g) + Endpoints(CatalogSigs(o, procs))
    decreases |procs|
  {
    if procs == [] {
      assert Endpoints([]) == {};
    } else {
      var g1 := PopulateProcedure(g, o, procs[0]);
      AddPairsKeys(g, o, procs[0], ConflictPairsOf(o, procs[0]));
      PopulateAllKeys(g1, o, procs[1..]);
      EndpointsAppend(ProcedureSigs(o, procs[0], ConflictPairsOf(o, procs[0])), CatalogSigs(o, procs[1..]));
      UnionShift(VertexKeys(g), Endpoints(ProcedureSigs(o, procs[0], ConflictPairsOf(o, procs[0]))), Endpoints(CatalogSigs(o, procs[1..])),
        VertexKeys(g1), VertexKeys(PopulateAll(g1, o, procs[1..])));
    }
  }

  /**
   * The finished graph has a vertex for a (procedure, table) key exactly
   * when some edge it was asked to add starts or ends at that key, and
   * procTblXref is keyed by exactly those keys.
   */
  lemma BuildVertexKeys(o: Oracle, procs: seq<Procedure>)
    ensures VertexKeys(Build(o, procs)) == Endpoints(CatalogSigs(o, procs))
    ensures Build(o, procs).procTblXref.Keys == Endpoints(CatalogSigs(o, procs))
  {
    PopulateAllKeys(Empty(), o, procs);
    assert VertexKeys(Empty()) == {};
    KeyIndexMatchesVertices(Build(o, procs));
  }

  // ---------------------------------------------------------------------------
  // When one key has one vertex object
  // ---------------------------------------------------------------------------

  /** No conflict pair of any of the procedures has its second statement in the procedure itself. */
  ghost predicate NoSelfConflicts(o: Oracle, procs: seq<Procedure>)
  {
    forall p, cp :: p in procs && cp in ConflictPairsOf(o, p) ==> !SelfConflict(p, cp)
  }

  lemma {:induction false} AddPairEdgesKeysUnique(g: Graph, proc0: Procedure, cp: ConflictPair, tables: seq<Table>)
    requires Valid(g) && KeysUnique(g) && !SelfConflict(proc0, cp)
    ensures KeysUnique(AddPairEdges(g, proc0, cp, tables))
    decreases |tables|
  {
    if tables != [] {
      var g1 := AddConflictEdge(g, proc0, cp, tables[0]);
      AddConflictEdgeKeepsValid(g, proc0, cp, tables[0]);
      AddConflictEdgeKeysUnique(g, proc0, cp, tables[0]);
      AddPairEdgesKeysUnique(g1, proc0, cp, tables[1..]);
    }
  }

  lemma {:induction false} AddPairsKeysUnique(g: Graph, o: Oracle, proc0: Procedure, pairs: seq<ConflictPair>)
    requires Valid(g) && KeysUnique(g)
    requires forall cp :: cp in pairs ==> !SelfConflict(proc0, cp)
    ensures KeysUnique(AddPairs(g, o, proc0, pairs))
    decreases |pairs|
  {
    if pairs != [] {
      var g1 := AddPairEdges(g, proc0, pairs[0], ReferencedTables(o, pairs[0].stmt0));
      AddPairEdgesKeysUnique(g, proc0, pairs[0], ReferencedTables(o, pairs[0].stmt0));
      assert forall cp :: cp in pairs[1..] ==> cp in pairs;
      AddPairsKeysUnique(g1, o, proc0, pairs[1..]);
    }
  }

  lemma {:induction false} PopulateAllKeysUnique(g: Graph, o: Oracle, procs: seq<Procedure>)
    requires Valid(g) && KeysUnique(g) && NoSelfConflicts(o, procs)
    ensures KeysUnique(PopulateAll(g, o, procs))
    decreases |procs|
  {
    if procs != [] {
      var g1 := PopulateProcedure(g, o, procs[0]);
      AddPairsKeysUnique(g, o, procs[0], ConflictPairsOf(o, procs[0]));
      assert forall p :: p in procs[1..] ==> p in procs;
      PopulateAllKeysUnique(g1, o, procs[1..]);
    }
  }

  /**
   * Without self-conflicts the built graph has one vertex object per key,
   * and procTblXref is then a bijection between its keys and the vertices.
   */
  lemma BuildKeysUnique(o: Oracle, procs: seq<Procedure>)
    requires NoSelfConflicts(o, procs)
    ensures KeysUnique(Build(o, procs))
    ensures forall v :: v in Build(o, procs).vertices ==> Build(o, procs).procTblXref[v.key] == v
    ensures Build(o, procs).procTblXref.Values == Build(o, procs).vertices
  {
    PopulateAllKeysUnique(Empty(), o, procs);
    UniqueKeysIndexExact(Build(o, procs));
  }

  // ---------------------------------------------------------------------------
  // Vertices exist only as edge endpoints
  // ---------------------------------------------------------------------------

  /** Every vertex is the source or the target of some edge. */
  ghost predicate EveryVertexOnEdge(g: Graph)
  {
    forall v :: v in g.vertices ==> exists i :: 0 <= i < |g.edges| && (g.edges[i].source == v || g.edges[i].target == v)
  }

  lemma AddConflictEdgeOnEdge(g: Graph, proc0: Procedure, cp: ConflictPair, t: Table)
    requires EveryVertexOnEdge(g)
    ensures EveryVertexOnEdge(AddConflictEdge(g, proc0, cp, t))
  {
    var r := AddConflictEdge(g, proc0, cp, t);
    var n := |g.edges|;
    forall v | v in r.vertices
      ensures exists i :: 0 <= i < |r.edges| && (r.edges[i].source == v || r.edges[i].target == v)
    {
      if v in g.vertices {
        var i :| 0 <= i < n && (g.edges[i].source == v || g.edges[i].target == v);
        assert r.edges[i] == g.edges[i];
      } else {
        assert r.edges[n].source == v || r.edges[n].target == v;
      }
    }
  }

  lemma {:induction false} AddPairEdgesOnEdge(g: Graph, proc0: Procedure, cp: ConflictPair, tables: seq<Table>)
    requires EveryVertexOnEdge(g)
    ensures EveryVertexOnEdge(AddPairEdges(g, proc0, cp, tables))
    decreases |tables|
  {
    if tables != [] {
      AddConflictEdgeOnEdge(g, proc0, cp, tables[0]);
      AddPairEdgesOnEdge(AddConflictEdge(g, proc0, cp, tables[0]), proc0, cp, tables[1..]);
    }
  }

  lemma {:induction false} AddPairsOnEdge(g: Graph, o: Oracle, proc0: Procedure, pairs: seq<ConflictPair>)
    requires EveryVertexOnEdge(g)
    ensures EveryVertexOnEdge(AddPairs(g, o, proc0, pairs))
    decreases |pairs|
  {
    if pairs != [] {
      var tables := ReferencedTables(o, pairs[0].stmt0);
      AddPairEdgesOnEdge(g, proc0, pairs[0], tables);
      AddPairsOnEdge(AddPairEdges(g, proc0, pairs[0], tables), o, proc0, pairs[1..]);
    }
  }

  lemma {:induction false} PopulateAllOnEdge(g: Graph, o: Oracle, procs: seq<Procedure>)
    requires EveryVertexOnEdge(g)
    ensures EveryVertexOnEdge(PopulateAll(g, o, procs))
    decreases |procs|
  {
    if procs != [] {
      AddPairsOnEdge(g, o, procs[0], ConflictPairsOf(o, procs[0]));
      PopulateAllOnEdge(PopulateProcedure(g, o, procs[0]), o, procs[1..]);
    }
  }

  /**
   * Vertices are only ever added while adding an edge, so every vertex of
   * the built graph is an endpoint of one of its edges.
   */
  lemma BuildEveryVertexOnEdge(o: Oracle, procs: seq<Procedure>)
    ensures EveryVertexOnEdge(Build(o, procs))
  {
    PopulateAllOnEdge(Empty(), o, procs);
  }
}
