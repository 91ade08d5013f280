# Conflict-graph builder of ConflictSetDump

This project models, in Dafny, the core of H-Store's `ConflictSetDump` tool. The core is the `DumpGraph` that the tool builds from a catalog's conflict pairs. A vertex stands for a (procedure, table) pair. Each edge is labelled by a pair of conflicting statements and joins two such vertices. The project also models the small decisions of the tool's `main`:
- the format check on "procedure.statement" exclusion entries;
- the "focus procedure" step;
- the default output file name.

How the graph is built:
- The constructor calls `populateProcedure` for every catalog procedure in catalog order.
- `populateProcedure(proc0)` walks every conflict pair (stmt0, stmt1) reported for proc0, and every table tbl that stmt0 references.
- For each such combination it looks up the vertex for (proc0, tbl), and creates it if missing.
- It then looks up the vertex for (stmt1's procedure, tbl), and creates that one if missing.
- Finally it adds an edge labelled (stmt0, stmt1) between the two vertices.
- The overridden `addVertex` keeps two indices up to date: `procTblXref`, which maps (procedure, table) to a vertex, and `procXref`, which maps a procedure to its set of vertices.

Modules:
- `Catalog` holds the catalog entities. The two catalog queries (`getAllConflictPairs` and `getReferencedTables`) are given data, in an `Oracle`.
- `DumpGraph` holds the graph state, `getVertex`, `addVertex`, `new Vertex`, the get-or-create idiom and `addEdge`. It also states the invariants the indices keep (`Valid`).
- `Population` holds the loops of `populateProcedure` and of the constructor. It also holds the reference definition of the edges they must add (`PairSigs`, `ProcedureSigs`, `CatalogSigs`). The folds are proved to add exactly those edges, in order.
- `GraphFacts` holds the properties of the finished graph, among them:
  - which keys it has;
  - where each edge comes from;
  - that edges are never merged;
  - that every vertex lies on an edge;
  - exactly when a key ends up with two vertex objects.
- `ExclusionNames` holds the "procedure.statement" entry check, with `String.split` semantics.
- `DumpMain` holds the focus step and the output name.
- `Scenarios` holds small concrete catalogs: two procedures with one conflict, and one procedure that conflicts with itself.

Assumptions about the generic graph library, which is not part of this model:
- A vertex is identified by the object, not by its key. In the model, `Vertex.id` stands for object identity: every `new Vertex` receives an id never used before.
- `addVertex` answers true exactly when the vertex was not yet in the graph.
- `addEdge(e, v0, v1)` first adds v0 and then v1 through the overridden `addVertex`, and then appends e. An edge is never merged with an earlier one.

Two places where the code does less than its own structure suggests; the model follows the code:
- **Vertex uniqueness.** The get-or-create idiom at `ConflictSetDump.java:131-138` looks up a key's vertex before making a new one, so it expects one vertex object per (procedure, table) key. But v1 is looked up before v0 has been added. So for a self-conflict (stmt1 belongs to proc0 itself) on a key the graph does not have yet, two vertex objects with the same key are created.
  - Both objects end up in the graph, and `procTblXref` keeps only the second.
  - The edge joins two different vertices, not one vertex to itself.
  - `GraphFacts.AddConflictEdgeKeysUnique` states that this is the only way uniqueness is lost.
  - A self-loop on a single vertex appears only when the key already existed.
- **Focus step.** The comment at `ConflictSetDump.java:196-197` says edges not involving the focus procedure are to be removed. The removal calls at lines 204-205 are commented out, so a resolved focus procedure leaves the graph exactly as it is.
  - If that procedure owns no vertex, `procXref.get` answers null and the loop dereferences it (`DumpMain.Focus` answers `NullDereference`).
  - An unresolved name only gives a warning.

## Model

| member | source | states |
|---|---|---|
| DumpGraph.Empty | src/frontend/edu/brown/catalog/conflicts/ConflictSetDump.java:94-99 | the graph before any procedure is populated has no vertices and no edges, and satisfies every index invariant, with one vertex per key |
| DumpGraph.GetVertex | src/frontend/edu/brown/catalog/conflicts/ConflictSetDump.java:105-107 | answers the vertex stored under (proc, tbl), and none exactly when the key has no entry; in a valid graph, an answer exists iff some vertex has that key, and the answer is such a vertex |
| DumpGraph.AddVertex | src/frontend/edu/brown/catalog/conflicts/ConflictSetDump.java:108-122 | answers true iff the vertex is new; when refused, nothing changes; when accepted, the vertex joins the graph, procTblXref maps its key to it (replacing any earlier entry), and its procedure's set in procXref gains it (the set is created on first use) |
| DumpGraph.AddVertexKeepsValid | src/frontend/edu/brown/catalog/conflicts/ConflictSetDump.java:108-122 | addVertex keeps both indices sound and complete: procXref[p] is exactly p's vertices and never empty; the graph only grows |
| DumpGraph.NewVertex | src/frontend/edu/brown/catalog/conflicts/ConflictSetDump.java:132-137 | `new Vertex(proc, tbl)` yields an object with that key, distinct from every vertex already in a valid graph |
| DumpGraph.GetOrNew | src/frontend/edu/brown/catalog/conflicts/ConflictSetDump.java:131-138 | reuses the indexed vertex when the key has an entry, else hands out a fresh object; vertices and indices are untouched either way |
| DumpGraph.GetOrNewFacts | src/frontend/edu/brown/catalog/conflicts/ConflictSetDump.java:131-138 | in a valid graph, the vertex handed out has the asked key, is already in the graph iff the key is indexed, and is otherwise newer than every vertex |
| DumpGraph.AddEdge | src/frontend/edu/brown/catalog/conflicts/ConflictSetDump.java:139-140 | appends exactly one edge with the given labels and endpoints, and adds both endpoints to the vertex set; with both endpoints present, the indices do not change |
| DumpGraph.AddEdgeKeepsValid | src/frontend/edu/brown/catalog/conflicts/ConflictSetDump.java:139-140 | adding an edge keeps every invariant, including that no edge has an endpoint outside the graph |
| DumpGraph.AppendEdgeKeepsValid | src/frontend/edu/brown/catalog/conflicts/ConflictSetDump.java:140 | appending an edge between two vertices of the graph keeps every invariant |
| Population.AddConflictEdge | src/frontend/edu/brown/catalog/conflicts/ConflictSetDump.java:130-141 | one inner iteration appends one edge labelled (stmt0, stmt1). Its source is the indexed (proc0, tbl) vertex or the next fresh object. Its target is the indexed (proc1, tbl) vertex or the next fresh object after that; the lookup for the target happens before the source is added |
| Population.AddConflictEdgeKeepsValid | src/frontend/edu/brown/catalog/conflicts/ConflictSetDump.java:130-141 | one inner iteration keeps every invariant and appends exactly the reference edge (stmt0, stmt1, (proc0, tbl), (proc1, tbl)) |
| Population.AddPairEdges | src/frontend/edu/brown/catalog/conflicts/ConflictSetDump.java:130-141 | the table loop adds one edge per referenced table, in order, equal to the reference PairSigs, and keeps every invariant |
| Population.AddPairs | src/frontend/edu/brown/catalog/conflicts/ConflictSetDump.java:125-142 | the conflict-pair loop adds the pairs' edges pair after pair, as many as the tables the first statements reference, equal to ProcedureSigs |
| Population.PopulateProcedure | src/frontend/edu/brown/catalog/conflicts/ConflictSetDump.java:124-145 | populateProcedure(proc0) appends exactly ProcedureSigs of proc0's reported pairs, keeping every invariant |
| Population.PopulateAll | src/frontend/edu/brown/catalog/conflicts/ConflictSetDump.java:100-102 | the constructor's loop appends each procedure's edges in catalog order (CatalogSigs), keeping every invariant |
| Population.Build | src/frontend/edu/brown/catalog/conflicts/ConflictSetDump.java:98-103 | the constructed graph is valid, its edges are exactly the reference edges in order, and their number is the total fan-out |
| GraphFacts.AddVertexIndexed | src/frontend/edu/brown/catalog/conflicts/ConflictSetDump.java:105-122 | after a successful addVertex, getVertex answers the new vertex for its key, the procedure's set holds it, and every other key answers as before |
| GraphFacts.UniqueKeysIndexExact | src/frontend/edu/brown/catalog/conflicts/ConflictSetDump.java:109-122 | with one object per key, procTblXref maps every vertex's key to that vertex, and its values are exactly the vertices |
| GraphFacts.KeyIndexMatchesVertices | src/frontend/edu/brown/catalog/conflicts/ConflictSetDump.java:109-122 | the keys of procTblXref are exactly the keys of the graph's vertices |
| GraphFacts.AddConflictEdgeFresh | src/frontend/edu/brown/catalog/conflicts/ConflictSetDump.java:131-140 | a vertex an inner iteration adds is an endpoint of its edge, has a key that was not indexed, and is a never-used object |
| GraphFacts.AddConflictEdgeEndpoints | src/frontend/edu/brown/catalog/conflicts/ConflictSetDump.java:131-140 | the new edge goes from a (proc0, tbl) vertex to a (parent of stmt1, tbl) vertex |
| GraphFacts.AddConflictEdgeKeys | src/frontend/edu/brown/catalog/conflicts/ConflictSetDump.java:131-140 | an inner iteration adds exactly the keys (proc0, tbl) and (proc1, tbl) to the graph's keys |
| GraphFacts.FreshSelfConflictDuplicates | src/frontend/edu/brown/catalog/conflicts/ConflictSetDump.java:128-140 | a self-conflict on an unindexed key creates two distinct objects with that key; both are in the graph, procTblXref keeps the target, and the source is no longer indexed |
| GraphFacts.AddConflictEdgeKeysUnique | src/frontend/edu/brown/catalog/conflicts/ConflictSetDump.java:128-140 | starting from one object per key, an inner iteration keeps that property iff it is not a self-conflict on an unindexed key |
| GraphFacts.PairSigsShape | src/frontend/edu/brown/catalog/conflicts/ConflictSetDump.java:130-141 | a pair yields one edge per referenced table, the i-th for the i-th table |
| GraphFacts.NoTablesNoEdges | src/frontend/edu/brown/catalog/conflicts/ConflictSetDump.java:130-141 | a pair whose first statement references no table leaves the graph exactly as it was, creating no vertex |
| GraphFacts.RepeatedPairNotMerged | src/frontend/edu/brown/catalog/conflicts/ConflictSetDump.java:125-141 | a conflict pair reported twice yields its edges twice: equal edges are never merged |
| GraphFacts.CatalogSigsAppend | src/frontend/edu/brown/catalog/conflicts/ConflictSetDump.java:100-102 | the reference edges of ps + qs are those of ps followed by those of qs |
| GraphFacts.PopulateAllAppend | src/frontend/edu/brown/catalog/conflicts/ConflictSetDump.java:100-102 | populating ps + qs is populating ps and then qs |
| GraphFacts.BuildIsConcatenation | src/frontend/edu/brown/catalog/conflicts/ConflictSetDump.java:98-103 | the edges built for ps are a prefix of those built for ps + qs, and the rest are qs's reference edges |
| GraphFacts.PairSigsMembers | src/frontend/edu/brown/catalog/conflicts/ConflictSetDump.java:130-141 | a pair's edge list contains a signature iff it is the pair's edge for a table in the list |
| GraphFacts.ProcedureSigsMembers | src/frontend/edu/brown/catalog/conflicts/ConflictSetDump.java:125-141 | a procedure's edge list contains a signature iff some listed pair yields it on a table its first statement references |
| GraphFacts.CatalogSigsMembers | src/frontend/edu/brown/catalog/conflicts/ConflictSetDump.java:100-141 | the reference contains a signature iff its source procedure is a catalog procedure reporting a pair and table that yield it |
| GraphFacts.BuildEdgesFromConflicts | src/frontend/edu/brown/catalog/conflicts/ConflictSetDump.java:98-141 | every built edge joins two vertices on the same table, from a catalog procedure's vertex to stmt1's procedure's vertex, for a reported pair and a referenced table; conversely, every such combination is some edge |
| GraphFacts.AddPairEdgesKeys | src/frontend/edu/brown/catalog/conflicts/ConflictSetDump.java:130-141 | the table loop adds exactly the endpoint keys of its reference edges |
| GraphFacts.AddPairsKeys | src/frontend/edu/brown/catalog/conflicts/ConflictSetDump.java:125-142 | the pair loop adds exactly the endpoint keys of its reference edges |
| GraphFacts.PopulateAllKeys | src/frontend/edu/brown/catalog/conflicts/ConflictSetDump.java:100-102 | the constructor loop adds exactly the endpoint keys of its reference edges |
| GraphFacts.BuildVertexKeys | src/frontend/edu/brown/catalog/conflicts/ConflictSetDump.java:98-141 | the built graph has a vertex for a (procedure, table) key iff some reference edge starts or ends there, and procTblXref is keyed by exactly those keys |
| GraphFacts.AddPairEdgesKeysUnique | src/frontend/edu/brown/catalog/conflicts/ConflictSetDump.java:130-141 | the table loop of a pair that is not a self-conflict keeps one object per key |
| GraphFacts.AddPairsKeysUnique | src/frontend/edu/brown/catalog/conflicts/ConflictSetDump.java:125-142 | the pair loop without self-conflicts keeps one object per key |
| GraphFacts.PopulateAllKeysUnique | src/frontend/edu/brown/catalog/conflicts/ConflictSetDump.java:100-102 | the constructor loop over procedures without self-conflicts keeps one object per key |
| GraphFacts.BuildKeysUnique | src/frontend/edu/brown/catalog/conflicts/ConflictSetDump.java:94-141 | without self-conflicts, the built graph has one object per key, and procTblXref is a bijection between its keys and the vertices |
| GraphFacts.AddConflictEdgeOnEdge | src/frontend/edu/brown/catalog/conflicts/ConflictSetDump.java:131-140 | after an inner iteration, every vertex is still an endpoint of some edge |
| GraphFacts.AddPairEdgesOnEdge | src/frontend/edu/brown/catalog/conflicts/ConflictSetDump.java:130-141 | the table loop keeps every vertex on some edge |
| GraphFacts.AddPairsOnEdge | src/frontend/edu/brown/catalog/conflicts/ConflictSetDump.java:125-142 | the pair loop keeps every vertex on some edge |
| GraphFacts.PopulateAllOnEdge | src/frontend/edu/brown/catalog/conflicts/ConflictSetDump.java:100-102 | the constructor loop keeps every vertex on some edge |
| GraphFacts.BuildEveryVertexOnEdge | src/frontend/edu/brown/catalog/conflicts/ConflictSetDump.java:98-141 | every vertex of the built graph is the source or target of one of its edges; no vertex is isolated |
| ExclusionNames.Fields | src/frontend/edu/brown/catalog/conflicts/ConflictSetDump.java:173 | splitting keeps at least one field, and no field contains the separator |
| ExclusionNames.StripTrailingEmpty | src/frontend/edu/brown/catalog/conflicts/ConflictSetDump.java:173 | the result is a prefix ending in a non-empty field (or is empty), and everything dropped was empty |
| ExclusionNames.JoinFields | src/frontend/edu/brown/catalog/conflicts/ConflictSetDump.java:173 | joining the fields with the separator gives back the original string |
| ExclusionNames.FieldsJoin | src/frontend/edu/brown/catalog/conflicts/ConflictSetDump.java:173 | splitting the join of separator-free fields gives back those fields |
| ExclusionNames.Split | src/frontend/edu/brown/catalog/conflicts/ConflictSetDump.java:173 | `String.split` with the default limit: no part holds the separator; a string without the separator splits into itself alone; otherwise the result is all fields between separators with exactly the trailing empty ones removed |
| ExclusionNames.ParseExclusion | src/frontend/edu/brown/catalog/conflicts/ConflictSetDump.java:173-177 | an accepted entry yields a procedure name and a non-empty statement name, neither holding a dot; an entry without a dot is refused |
| ExclusionNames.ParseExclusions | src/frontend/edu/brown/catalog/conflicts/ConflictSetDump.java:172-177 | the parameter is split on ',' and each entry gets its own verdict, in order |
| ExclusionNames.ParseExclusionsOfJoin | src/frontend/edu/brown/catalog/conflicts/ConflictSetDump.java:172-177 | entries joined by commas (the last one non-empty) are judged one by one, each by the entry check |
| ExclusionNames.ParseExclusionAccepts | src/frontend/edu/brown/catalog/conflicts/ConflictSetDump.java:173-177 | "proc.stmt" followed by any number of dots is accepted as (proc, stmt) when neither part has a dot and stmt is not empty; proc may be empty |
| ExclusionNames.ParseExclusionShape | src/frontend/edu/brown/catalog/conflicts/ConflictSetDump.java:173-177 | conversely, every accepted entry is exactly such a string, with dot-free parts and a non-empty statement |
| ExclusionNames.RefusesNoDot | src/frontend/edu/brown/catalog/conflicts/ConflictSetDump.java:173-177 | an entry without a dot splits into one part and is refused |
| ExclusionNames.RefusesDoubleDot | src/frontend/edu/brown/catalog/conflicts/ConflictSetDump.java:173-177 | "a..b" splits into three parts and is refused |
| ExclusionNames.RefusesEmptyStatement | src/frontend/edu/brown/catalog/conflicts/ConflictSetDump.java:173-177 | "a." loses its trailing empty part, leaves at most one part and is refused |
| DumpMain.Focus | src/frontend/edu/brown/catalog/conflicts/ConflictSetDump.java:198-211 | the focus step fails iff the name resolved to a procedure without a procXref entry; otherwise the graph is unchanged, with a warning iff the name did not resolve |
| DumpMain.FocusFailsIffNoVertex | src/frontend/edu/brown/catalog/conflicts/ConflictSetDump.java:200-207 | in a valid graph, focusing on a resolved procedure fails iff it owns no vertex, and otherwise removes nothing |
| DumpMain.AsciiLower | src/frontend/edu/brown/catalog/conflicts/ConflictSetDump.java:220 | lower-casing keeps the length and maps each character to its lower-case form |
| DumpMain.DefaultOutputName | src/frontend/edu/brown/catalog/conflicts/ConflictSetDump.java:218-221 | the default name is the type name, with every ASCII upper-case letter lowered and every other character kept, followed by "-conflicts.dot" |
| DumpMain.OutputPath | src/frontend/edu/brown/catalog/conflicts/ConflictSetDump.java:218-221 | the first optional argument wins when given; otherwise the default name is used |
| Scenarios.TwoProcedureSigs | src/frontend/edu/brown/catalog/conflicts/ConflictSetDump.java:100-141 | for buy's statement conflicting with sell's statement on one table, the reference is the single edge (buy, t) -> (sell, t) |
| Scenarios.TwoProcedureGraph | src/frontend/edu/brown/catalog/conflicts/ConflictSetDump.java:98-141 | that catalog builds one edge and exactly two vertices, (buy, t) and (sell, t) |
| Scenarios.TwoProcedureFocus | src/frontend/edu/brown/catalog/conflicts/ConflictSetDump.java:198-207 | focusing that graph on buy leaves it whole without a warning; focusing on a catalog procedure that owns no vertex fails |
| Scenarios.FocusOnOwner | src/frontend/edu/brown/catalog/conflicts/ConflictSetDump.java:200-207 | focusing on the procedure of some vertex key leaves the graph unchanged |
| Scenarios.FocusOnStranger | src/frontend/edu/brown/catalog/conflicts/ConflictSetDump.java:200-207 | focusing on a procedure that no vertex key mentions fails |
| Scenarios.FocusOnTwoKeys | src/frontend/edu/brown/catalog/conflicts/ConflictSetDump.java:200-207 | on a graph over two keys, focusing on the first key's procedure keeps the graph, and focusing on a third procedure fails |
| Scenarios.SingleEdgeCatalog | src/frontend/edu/brown/catalog/conflicts/ConflictSetDump.java:100-141 | one procedure with one pair on one table is populated by exactly one inner iteration |
| Scenarios.SelfConflictGraph | src/frontend/edu/brown/catalog/conflicts/ConflictSetDump.java:124-141 | a procedure whose statement conflicts with its own other statement yields one edge between two distinct vertex objects with the same key; these two are all the vertices; procTblXref keeps only the target, while procXref of the procedure holds both |
| Scenarios.SelfConflictFirstStep | src/frontend/edu/brown/catalog/conflicts/ConflictSetDump.java:109-140 | the first inner iteration of a self-conflict on the empty graph creates two objects with one key, indexes only the second in procTblXref, and puts both in procXref |

## Left out

- Argument parsing, catalog loading and the case-insensitive name lookups (`getIgnoreCase`): the focus step takes the lookup's answer as an `Option<Procedure>`. The exclusion checks are modelled only up to the format check on each entry.
- The procedure exclusion list (lines 157-167) and the resolution of accepted statement entries (lines 178-189): these are name lookups and calls into the conflict calculator.
- The conflict-set calculator and what it computes: `ConflictSetUtil.getAllConflictPairs` (line 125) is given data, as is the catalog query `CatalogUtil.getReferencedTables` (line 130). Iteration order is the order of the given sequences.
- The generic graph library: it is reduced to the behaviour stated above. Its own indices, and `AbstractVertex`/`AbstractEdge` internals, are not modelled.
- The `equals`/`hashCode` overrides of `ProcedureTable` and `Edge` (lines 51-58 and 84-91): `this.pair.equals(obj)` compares a `Pair` with a `ProcedureTable` or an `Edge`, which is false for every other object. For edges this settles it: `Edge` overrides `equals` itself (lines 88-91), so no two distinct edge objects are ever equal, whatever store the graph library keeps behind `addEdge` (line 140). `Vertex` (lines 68-72) overrides neither method, so vertex equality is whatever `AbstractVertex` defines, and that class is not part of this model. For vertices the model rests on the identity assumption stated above. If `AbstractVertex` hands equality to its catalog item, `ProcedureTable.equals` answers false there as well, so the assumption still holds. The model uses identity (`Vertex.id`, an edge sequence) and does not model the hashing itself.
- The edge filter of the focus step (`GraphUtil.removeEdgesWithoutVertex` and `GraphUtil.removeDisconnectedVertices`, lines 204-205): the calls are commented out, so it is not modelled. `GraphUtil` is not part of this model.
- Graphviz export, file writing, console output and `System.exit`.
- DumpMain.AsciiLower: lower-cases ASCII letters only, because `String.toLowerCase` with the default locale (Unicode case mapping) is not modelled.
