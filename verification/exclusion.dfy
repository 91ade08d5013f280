/**
 * The format check on "procedure.statement" exclusion entries in the
 * command-line front end: the parameter is split on ',' and each entry must
 * split on '.' into exactly two parts, or it is reported and skipped.
 *
 * Splitting follows java.lang.String.split(regex) with the default limit:
 * every field between separators is kept, trailing empty fields are then
 * dropped, and a string without any separator splits into itself alone.
 */
module ExclusionNames {
  import opened Optional

  /** Every field of s between occurrences of sep, none dropped. */
  function Fields(s: string, sep: char): (r: seq<string>)
    ensures |r| >= 1
    ensures forall i :: 0 <= i < |r| ==> sep !in r[i]
    decreases |s|
  {
    if s == [] then [[]]
    else
      var rest := Fields(s[1..], sep);
      if s[0] == sep then [[]] + rest
      else [[s[0]] + rest[0]] + rest[1..]
  }

  /** The fields put back together with sep between neighbours. */
  function Join(fs: seq<string>, sep: char): string
    decreases |fs|
  {
    if fs == [] then []
    else if |fs| == 1 then fs[0]
    else fs[0] + [sep] + Join(fs[1..], sep)
  }

  /** The fields with every trailing empty one removed. */
  function StripTrailingEmpty(fs: seq<string>): (r: seq<string>)
    ensures r <= fs
    ensures r == [] || r[|r| - 1] != []
    ensures forall i :: |r| <= i < |fs| ==> fs[i] == []
    decreases |fs|
  {
    if fs == [] then []
    else if fs[|fs| - 1] == [] then StripTrailingEmpty(fs[..|fs| - 1])
    else fs
  }

  /** String.split(sep) with the default limit, for a separator that is one literal character. */
  function Split(s: string, sep: char): (r: seq<string>)
    ensures forall i :: 0 <= i < |r| ==> sep !in r[i]
    ensures sep !in s ==> r == [s]
    ensures sep in s ==> r == [] || r[|r| - 1] != []
    ensures sep in s ==> |r| <= |Fields(s, sep)| && Fields(s, sep) == r + Empties(|Fields(s, sep)| - |r|)
  {
    if sep !in s then [s] else StripTrailingEmpty(Fields(s, sep))
  }

  /** An accepted exclusion entry: procedure name and statement name. */
  datatype StatementName = StatementName(procName: string, stmtName: string)

  /** One entry: accepted exactly when it splits on '.' into two parts. */
  function ParseExclusion(name: string): (r: Option<StatementName>)
    ensures r.Some? ==> '.' !in r.value.procName && '.' !in r.value.stmtName && r.value.stmtName != []
    ensures '.' !in name ==> r == None
  {
    var parts := Split(name, '.');
    if |parts| != 2 then None else Some(StatementName(parts[0], parts[1]))
  }

  /** The comma-separated parameter: one verdict per entry, in order. */
  function ParseExclusions(param: string): (r: seq<Option<StatementName>>)
    ensures |r| == |Split(param, ',')|
    ensures forall i :: 0 <= i < |r| ==> r[i] == ParseExclusion(Split(param, ',')[i])
  {
    var names := Split(param, ',');
    seq(|names|, i requires 0 <= i < |names| => ParseExclusion(names[i]))
  }

  /** k separator characters in a row. */
  function Repeat(c: char, k: nat): (r: string)
    ensures |r| == k && forall i :: 0 <= i < k ==> r[i] == c
  {
    seq(k, _ => c)
  }

  /** k empty fields. */
  function Empties(k: nat): (r: seq<string>)
    ensures |r| == k && forall i :: 0 <= i < k ==> r[i] == []
  {
    seq(k, _ => [])
  }

  // ---------------------------------------------------------------------------
  // Fields and Join are inverse
  // ---------------------------------------------------------------------------

  lemma {:induction false} JoinFields(s: string, sep: char)
    ensures Join(Fields(s, sep), sep) == s
    decreases |s|
  {
    if s != [] {
      var rest := Fields(s[1..], sep);
      JoinFields(s[1..], sep);
      if s[0] == sep {
        assert ([[]] + rest)[1..] == rest;
      } else {
        var fs := [[s[0]] + rest[0]] + rest[1..];
        if |rest| == 1 {
          assert Join(fs, sep) == [s[0]] + rest[0];
        } else {
          assert fs[1..] == rest[1..];
          assert Join(rest, sep) == rest[0] + [sep] + Join(rest[1..], sep);
        }
      }
    }
  }

  lemma {:induction false} FieldsWithoutSep(x: string, sep: char)
    requires sep !in x
    ensures Fields(x, sep) == [x]
    decreases |x|
  {
    if x != [] {
      FieldsWithoutSep(x[1..], sep);
      assert [x[0]] + x[1..] == x;
    }
  }

  lemma {:induction false} FieldsAfterField(x: string, y: string, sep: char)
    requires sep !in x
    ensures Fields(x + [sep] + y, sep) == [x] + Fields(y, sep)
    decreases |x|
  {
    var s := x + [sep] + y;
    if x == [] {
      assert s[1..] == y;
    } else {
      assert s[1..] == x[1..] + [sep] + y;
      FieldsAfterField(x[1..], y, sep);
      assert [x[0]] + x[1..] == x;
    }
  }

  lemma {:induction false} FieldsJoin(fs: seq<string>, sep: char)
    requires |fs| >= 1
    requires forall i :: 0 <= i < |fs| ==> sep !in fs[i]
    ensures Fields(Join(fs, sep), sep) == fs
    decreases |fs|
  {
    if |fs| == 1 {
      FieldsWithoutSep(fs[0], sep);
    } else {
      FieldsJoin(fs[1..], sep);
      FieldsAfterField(fs[0], Join(fs[1..], sep), sep);
      assert [fs[0]] + fs[1..] == fs;
    }
  }

  lemma {:induction false} JoinAppendEmpty(fs: seq<string>, sep: char)
    requires |fs| >= 1
    ensures Join(fs + [[]], sep) == Join(fs, sep) + [sep]
    decreases |fs|
  {
    if |fs| == 1 {
      assert (fs + [[]])[1..] == [[]];
    } else {
      assert (fs + [[]])[1..] == fs[1..] + [[]];
      JoinAppendEmpty(fs[1..], sep);
    }
  }

  lemma {:induction false} JoinWithEmpties(fs: seq<string>, sep: char, k: nat)
    requires |fs| >= 1
    ensures Join(fs + Empties(k), sep) == Join(fs, sep) + Repeat(sep, k)
    decreases k
  {
    if k == 0 {
      assert fs + Empties(0) == fs;
    } else {
      JoinWithEmpties(fs, sep, k - 1);
      assert fs + Empties(k) == (fs + Empties(k - 1)) + [[]];
      JoinAppendEmpty(fs + Empties(k - 1), sep);
      assert Repeat(sep, k) == Repeat(sep, k - 1) + [sep];
    }
  }

  lemma {:induction false} StripEmpties(fs: seq<string>, k: nat)
    requires fs != [] && fs[|fs| - 1] != []
    ensures StripTrailingEmpty(fs + Empties(k)) == fs
    decreases k
  {
    if k == 0 {
      assert fs + Empties(0) == fs;
    } else {
      var gs := fs + Empties(k);
      assert gs[..|gs| - 1] == fs + Empties(k - 1);
      StripEmpties(fs, k - 1);
    }
  }

  // ---------------------------------------------------------------------------
  // Which entries are accepted
  // ---------------------------------------------------------------------------

  /**
   * An entry "proc.stmt" followed by any number of dots is accepted as
   * (proc, stmt), as long as neither part holds a dot and stmt is not empty;
   * proc may be empty.
   */
  lemma ParseExclusionAccepts(a: string, b: string, k: nat)
    requires '.' !in a && '.' !in b && b != []
    ensures ParseExclusion(a + "." + b + Repeat('.', k)) == Some(StatementName(a, b))
  {
    var name := a + "." + b + Repeat('.', k);
    var fs := [a, b];
    assert Join(fs, '.') == a + "." + b by {
      assert fs[1..] == [b];
    }
    JoinWithEmpties(fs, '.', k);
    forall i | 0 <= i < |fs + Empties(k)|
      ensures '.' !in (fs + Empties(k))[i]
    {
      if i >= 2 {
        assert (fs + Empties(k))[i] == Empties(k)[i - 2];
      }
    }
    FieldsJoin(fs + Empties(k), '.');
    assert name[|a|] == '.';
    StripEmpties(fs, k);
  }

  /** Conversely, every accepted entry has exactly that shape. */
  lemma ParseExclusionShape(name: string)
    ensures ParseExclusion(name).Some? ==>
      var r := ParseExclusion(name).value;
      && '.' !in r.procName && '.' !in r.stmtName && r.stmtName != []
      && exists k: nat :: name == r.procName + "." + r.stmtName + Repeat('.', k)
  {
    if ParseExclusion(name).Some? {
      var r := ParseExclusion(name).value;
      assert '.' in name;
      var fs := Fields(name, '.');
      var parts := StripTrailingEmpty(fs);
      assert parts == [r.procName, r.stmtName];
      var k := |fs| - 2;
      assert fs == parts + Empties(k);
      JoinFields(name, '.');
      JoinWithEmpties(parts, '.', k);
      assert parts[1..] == [r.stmtName];
      assert name == r.procName + "." + r.stmtName + Repeat('.', k);
    }
  }

  /**
   * A parameter written as entries joined by commas, none holding a comma
   * and the last one not empty, is judged entry by entry in order.
   */
  lemma ParseExclusionsOfJoin(entries: seq<string>)
    requires |entries| >= 1 && entries[|entries| - 1] != []
    requires forall i :: 0 <= i < |entries| ==> ',' !in entries[i]
    ensures |ParseExclusions(Join(entries, ','))| == |entries|
    ensures forall i :: 0 <= i < |entries| ==> ParseExclusions(Join(entries, ','))[i] == ParseExclusion(entries[i])
  {
    var param := Join(entries, ',');
    FieldsJoin(entries, ',');
    if |entries| == 1 {
      assert Split(param, ',') == entries;
    } else {
      assert param == entries[0] + [','] + Join(entries[1..], ',');
      assert param[|entries[0]|] == ',';
      StripEmpties(entries, 0);
      assert entries + Empties(0) == entries;
      assert Split(param, ',') == entries;
    }
  }

  /** An entry without any dot is refused. */
  lemma RefusesNoDot(name: string)
    requires '.' !in name
    ensures ParseExclusion(name) == None
  {
  }

  /** Two dots in a row between two names give three parts: refused. */
  lemma RefusesDoubleDot(a: string, b: string)
    requires '.' !in a && '.' !in b && b != []
    ensures ParseExclusion(a + ".." + b) == None
  {
    var name := a + ".." + b;
    FieldsWithoutSep(b, '.');
    FieldsAfterField([], b, '.');
    assert [] + "." + b == "." + b;
    FieldsAfterField(a, "." + b, '.');
    assert a + "." + ("." + b) == name;
    assert name[|a|] == '.';
    assert Fields(name, '.') == [a, [], b];
  }

  /** Nothing after the dot: the trailing empty part is dropped, at most one part remains. */
  lemma RefusesEmptyStatement(a: string)
    requires '.' !in a
    ensures ParseExclusion(a + ".") == None
  {
    FieldsAfterField(a, [], '.');
    assert a + "." + [] == a + ".";
    assert (a + ".")[|a|] == '.';
    assert Fields(a + ".", '.') == [a, []];
    assert [a, []][..1] == [a];
  }
}
