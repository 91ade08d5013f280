/**
 * Two small catalogs worked through the builder: a conflict between two
 * procedures, and a procedure that conflicts with itself.
 */
module Scenarios {
  import opened Optional
  import opened Catalog
  import opened DumpGraph
  import opened Population
  import opened GraphFacts
  import opened DumpMain

  /**
   * Procedure buy's statement ins conflicts with procedure sell's statement
   * upd, ins references table t, and nothing else conflicts.
   */
  ghost predicate TwoProcedureCatalog(o: Oracle, buy: Procedure, sell: Procedure, ins: Statement, upd: Statement, t: Table)
  {
    && buy != sell && ins.parent == buy && upd.parent == sell
    && o.pairs == map[buy := [ConflictPair(ins, upd)]]
    && o.tables == map[ins := [t]]
  }

  /**
   * Building over buy and sell gives exactly the two vertices (buy, t) and
   * (sell, t) and one edge from the first to the second.
   */
  lemma TwoProcedureGraph(o: Oracle, buy: Procedure, sell: Procedure, ins: Statement, upd: Statement, t: Table)
    requires TwoProcedureCatalog(o, buy, sell, ins, upd, t)
    ensures var r := Build(o, [buy, sell]);
      && |r.edges| == 1
      && Sig(r.edges[0]) == EdgeSig(ins, upd, Key(buy, t), Key(sell, t))
      && VertexKeys(r) == {Key(buy, t), Key(sell, t)}
      && |r.vertices| == 2
  {
    var procs := [buy, sell];
    var s := EdgeSig(ins, upd, Key(buy, t), Key(sell, t));
    TwoProcedureSigs(o, buy, sell, ins, upd, t);
    var r := Build(o, procs);
    assert Sigs(r.edges)[0] == Sig(r.edges[0]);
    BuildVertexKeys(o, procs);
    EndpointsSingle(s);
    TwoProcedureNoSelfConflict(o, buy, sell, ins, upd, t);
    BuildKeysUnique(o, procs);
    TwoKeysTwoVertices(r, Key(buy, t), Key(sell, t));
  }

  /** The reference edges of that catalog: the single edge (buy, t) -> (sell, t). */
  lemma TwoProcedureSigs(o: Oracle, buy: Procedure, sell: Procedure, ins: Statement, upd: Statement, t: Table)
    requires TwoProcedureCatalog(o, buy, sell, ins, upd, t)
    ensures CatalogSigs(o, [buy, sell]) == [EdgeSig(ins, upd, Key(buy, t), Key(sell, t))]
  {
    var cp := ConflictPair(ins, upd);
    var s := EdgeSig(ins, upd, Key(buy, t), Key(sell, t));
    assert ConflictPairsOf(o, buy) == [cp];
    assert ConflictPairsOf(o, sell) == [];
    assert ReferencedTables(o, ins) == [t];
    assert PairSigs(buy, cp, [t]) == [s];
    assert ProcedureSigs(o, buy, [cp]) == [s];
    assert [buy, sell][1..] == [sell];
    assert CatalogSigs(o, [sell]) == [];
  }

  lemma TwoProcedureNoSelfConflict(o: Oracle, buy: Procedure, sell: Procedure, ins: Statement, upd: Statement, t: Table)
    requires TwoProcedureCatalog(o, buy, sell, ins, upd, t)
    ensures NoSelfConflicts(o, [buy, sell])
  {
    assert ConflictPairsOf(o, buy) == [ConflictPair(ins, upd)];
    assert ConflictPairsOf(o, sell) == [];
  }

  /** A graph with unique keys over two distinct keys has exactly two vertices. */
  lemma TwoKeysTwoVertices(g: Graph, k0: Key, k1: Key)
    requires KeysUnique(g) && k0 != k1 && VertexKeys(g) == {k0, k1}
    ensures |g.vertices| == 2
  {
    assert k0 in VertexKeys(g) && k1 in VertexKeys(g);
    var v0 :| v0 in g.vertices && v0.key == k0;
    var v1 :| v1 in g.vertices && v1.key == k1;
    forall v | v in g.vertices
      ensures v == v0 || v == v1
    {
      assert v.key in VertexKeys(g);
    }
    assert g.vertices == {v0, v1};
  }

  /**
   * The focus step on that graph keeps it whole when focused on buy; a
   * procedure that owns no vertex makes it fail.
   */
  lemma TwoProcedureFocus(o: Oracle, buy: Procedure, sell: Procedure, ins: Statement, upd: Statement, t: Table, ship: Procedure)
    requires TwoProcedureCatalog(o, buy, sell, ins, upd, t) && ship != buy && ship != sell
    ensures Focus(Build(o, [buy, sell]), Some(buy)) == Unchanged(Build(o, [buy, sell]), false)
    ensures Focus(Build(o, [buy, sell]), Some(ship)) == NullDereference
  {
    var r := Build(o, [buy, sell]);
    TwoProcedureGraph(o, buy, sell, ins, upd, t);
    FocusOnTwoKeys(r, Key(buy, t), Key(sell, t), ship);
  }

  /** Focusing on the procedure of some vertex's key leaves the graph whole, without a warning. */
  lemma FocusOnOwner(g: Graph, k: Key)
    requires Valid(g) && k in VertexKeys(g)
    ensures Focus(g, Some(k.proc)) == Unchanged(g, false)
  {
    FocusFailsIffNoVertex(g, k.proc);
  }

  /** On a graph over two keys, focusing on the first key's procedure keeps the graph and focusing on a third procedure fails. */
  lemma FocusOnTwoKeys(g: Graph, k0: Key, k1: Key, p: Procedure)
    requires Valid(g) && VertexKeys(g) == {k0, k1} && p != k0.proc && p != k1.proc
    ensures Focus(g, Some(k0.proc)) == Unchanged(g, false)
    ensures Focus(g, Some(p)) == NullDereference
  {
    FocusOnOwner(g, k0);
    FocusOnStranger(g, p);
  }

  /** Focusing on a procedure no vertex key mentions fails. */
  lemma FocusOnStranger(g: Graph, p: Procedure)
    requires Valid(g) && forall k :: k in VertexKeys(g) ==> k.proc != p
    ensures Focus(g, Some(p)) == NullDereference
  {
    FocusFailsIffNoVertex(g, p);
    forall v | v in g.vertices
      ensures v.key.proc != p
    {
      assert v.key in VertexKeys(g);
    }
  }

  /** Procedure swap's statement rd conflicts with swap's own statement wr; rd references t. */
  ghost predicate SelfConflictCatalog(o: Oracle, swap: Procedure, rd: Statement, wr: Statement, t: Table)
  {
    && rd.parent == swap && wr.parent == swap
    && o.pairs == map[swap := [ConflictPair(rd, wr)]]
    && o.tables == map[rd := [t]]
  }

  /**
   * The self-conflict yields one edge whose two endpoints are different
   * vertex objects with the same key (swap, t). procTblXref no longer
   * names the source, while procXref[swap] still holds both objects.
   */
  lemma SelfConflictGraph(o: Oracle, swap: Procedure, rd: Statement, wr: Statement, t: Table)
    requires SelfConflictCatalog(o, swap, rd, wr, t)
    ensures var r := Build(o, [swap]);
      && |r.edges| == 1
      && r.edges[0].source != r.edges[0].target
      && r.edges[0].source.key == Key(swap, t) && r.edges[0].target.key == Key(swap, t)
      && r.procTblXref[Key(swap, t)] == r.edges[0].target
      && r.vertices == {r.edges[0].source, r.edges[0].target}
      && swap in r.procXref && r.procXref[swap] == r.vertices
  {
    var cp := ConflictPair(rd, wr);
    assert ConflictPairsOf(o, swap) == [cp] && ReferencedTables(o, cp.stmt0) == [t];
    SingleEdgeCatalog(Empty(), o, swap, cp, t);
    SelfConflictFirstStep(swap, cp, t);
  }

  /** The first inner iteration for a self-conflict, on the empty graph. */
  lemma SelfConflictFirstStep(swap: Procedure, cp: ConflictPair, t: Table)
    requires SelfConflict(swap, cp)
    ensures var r := AddConflictEdge(Empty(), swap, cp, t);
      && |r.edges| == 1
      && r.edges[0].source != r.edges[0].target
      && r.edges[0].source.key == Key(swap, t) && r.edges[0].target.key == Key(swap, t)
      && r.procTblXref[Key(swap, t)] == r.edges[0].target
      && r.vertices == {r.edges[0].source, r.edges[0].target}
      && swap in r.procXref && r.procXref[swap] == r.vertices
  {
    var g := Empty();
    FreshSelfConflictDuplicates(g, swap, cp, t);
    AddConflictEdgeKeepsValid(g, swap, cp, t);
    var r := AddConflictEdge(g, swap, cp, t);
    PairOfOneProcedureIndex(r, r.edges[0].source, r.edges[0].target);
  }

  /** When the only vertices a and b belong to the same procedure, procXref of it holds both. */
  lemma PairOfOneProcedureIndex(g: Graph, a: Vertex, b: Vertex)
    requires Valid(g) && g.vertices == {a, b} && a.key.proc == b.key.proc
    ensures a.key.proc in g.procXref && g.procXref[a.key.proc] == g.vertices
  {
    assert a in g.vertices;
  }

  /**
   * When the only procedure has one conflict pair whose first statement
   * references one table, populating is one step of the inner loop.
   */
  lemma SingleEdgeCatalog(g: Graph, o: Oracle, p: Procedure, cp: ConflictPair, t: Table)
    requires ConflictPairsOf(o, p) == [cp] && ReferencedTables(o, cp.stmt0) == [t]
    ensures PopulateAll(g, o, [p]) == AddConflictEdge(g, p, cp, t)
  {
    var g1 := AddConflictEdge(g, p, cp, t);
    assert AddPairEdges(g, p, cp, [t]) == g1 by {
      assert AddPairEdges(g1, p, cp, []) == g1;
    }
    assert AddPairs(g, o, p, [cp]) == g1 by {
      assert AddPairs(g1, o, p, []) == g1;
    }
    assert PopulateAll(g1, o, []) == g1;
  }
}
