/** Some/None, standing in for a Java reference that may be null. */
module Optional {

  datatype Option<+T> = None | Some(value: T)
}

/**
 * The catalog objects the conflict-graph builder reads, and the two catalog
 * queries it relies on, taken as given data.
 */
module Catalog {

  /** A stored procedure of the catalog, identified by its name. */
  datatype Procedure = Procedure(name: string)

  /** A table of the catalog, identified by its name. */
  datatype Table = Table(name: string)

  /** A statement of a procedure; `parent` is what `getParent()` answers. */
  datatype Statement = Statement(parent: Procedure, name: string)

  /** One conflicting statement pair as reported for a procedure. */
  datatype ConflictPair = ConflictPair(stmt0: Statement, stmt1: Statement)

  /**
   * The two external catalog queries, as data:
   *   pairs   answers ConflictSetUtil.getAllConflictPairs(proc), in iteration order;
   *   tables  answers CatalogUtil.getReferencedTables(stmt), in iteration order.
   * A key that is absent answers the empty collection.
   */
  datatype Oracle = Oracle(pairs: map<Procedure, seq<ConflictPair>>, tables: map<Statement, seq<Table>>)

  function ConflictPairsOf(o: Oracle, p: Procedure): seq<ConflictPair>
  {
    if p in o.pairs then o.pairs[p] else []
  }

  function ReferencedTables(o: Oracle, s: Statement): seq<Table>
  {
    if s in o.tables then o.tables[s] else []
  }
}
