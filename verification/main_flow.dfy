/**
 * The parts of the command-line front end that decide something about the
 * built graph or the output: the "focus procedure" step, which removes
 * nothing (its removal calls are commented out) but walks procXref[p], and
 * the choice of the output file name.
 */
module DumpMain {
  import opened Optional
  import opened Catalog
  import opened DumpGraph

  /**
   * The focus step leaves the graph as it is, after a warning when the
   * name did not resolve; or it fails, because the set it walks is null.
   */
  datatype FocusOutcome = Unchanged(graph: Graph, warned: bool) | NullDereference

  /**
   * The focus step for a focus name that resolved to `focus`, or to None
   * when the case-insensitive lookup found no procedure.
   */
  function Focus(g: Graph, focus: Option<Procedure>): (r: FocusOutcome)
    ensures r.NullDereference? <==> focus.Some? && focus.value !in g.procXref
    ensures r.Unchanged? ==> r.graph == g && (r.warned <==> focus.None?)
  {
    match focus
    case None => Unchanged(g, true)
    case Some(p) => if p in g.procXref then Unchanged(g, false) else NullDereference
  }

  /**
   * In a valid graph the focus step fails exactly when the focused
   * procedure owns no vertex, and otherwise removes nothing.
   */
  lemma FocusFailsIffNoVertex(g: Graph, p: Procedure)
    requires Valid(g)
    ensures Focus(g, Some(p)).NullDereference? <==> forall v :: v in g.vertices ==> v.key.proc != p
    ensures Focus(g, Some(p)).Unchanged? ==> exists v :: v in g.vertices && v.key.proc == p
  {
    if p in g.procXref {
      var v :| v in g.procXref[p];
      assert v in g.vertices && v.key.proc == p;
    }
  }

  /** Character-wise lower-casing of ASCII letters. */
  function LowerChar(c: char): char
  {
    if 'A' <= c <= 'Z' then (c as int + 32) as char else c
  }

  function AsciiLower(s: string): (r: string)
    ensures |r| == |s|
    ensures forall i :: 0 <= i < |s| ==> r[i] == LowerChar(s[i])
  {
    seq(|s|, i requires 0 <= i < |s| => LowerChar(s[i]))
  }

  const Suffix: string := "-conflicts.dot"

  /** The output name used when none is given: the lower-cased catalog type name and a fixed suffix. */
  function DefaultOutputName(typeName: string): (r: string)
    ensures |r| == |typeName| + |Suffix|
    ensures r[|typeName|..] == Suffix
    ensures forall i :: 0 <= i < |typeName| ==> !('A' <= r[i] <= 'Z')
    ensures forall i :: 0 <= i < |typeName| ==> r[i] == typeName[i] || ('A' <= typeName[i] <= 'Z' && r[i] as int == typeName[i] as int + 32)
  {
    AsciiLower(typeName) + Suffix
  }

  /** The output path: the first optional argument when present, else the default name. */
  function OutputPath(optParam: Option<string>, typeName: string): (r: string)
    ensures optParam.Some? ==> r == optParam.value
    ensures optParam.None? ==> r == DefaultOutputName(typeName)
  {
    match optParam
    case Some(path) => path
    case None => DefaultOutputName(typeName)
  }
}
