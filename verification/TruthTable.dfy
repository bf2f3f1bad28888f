// The n x n tables of expected and observed connections (pkg/matrix/truthtable.go).
module TruthTables {
  import opened Text

  // A Go map of maps. Reading a missing row or cell gives nothing, which the program takes as false.
  type Grid<V> = map<string, map<string, V>>

  function Lookup<V>(g: Grid<V>, from: string, to: string): Option<V> {
    if from in g && to in g[from] then Some(g[from][to]) else None
  }

  predicate Cell(g: Grid<bool>, from: string, to: string) {
    Lookup(g, from, to) == Some(true)
  }

  /** A stored nil and a missing bandwidth read alike. */
  function Rate(g: Grid<Option<real>>, from: string, to: string): Option<real> {
    match Lookup(g, from, to)
    case Some(rate) => rate
    case None => None
  }

  /** The whole table filled with one default, or its rows left empty when there is none. */
  function NewGrid<V>(froms: seq<string>, tos: seq<string>, default: Option<V>): Grid<V> {
    map from | from in froms :: match default
                                case Some(v) => (map to | to in tos :: v)
                                case None => map[]
  }

  /** Writes one cell; the row must exist, for the program panics on a missing one. */
  function Write<V>(g: Grid<V>, from: string, to: string, v: V): Grid<V>
    requires from in g
  {
    g[from := g[from][to := v]]
  }

  lemma WriteLookup<V>(g: Grid<V>, row: string, col: string, v: V, from: string, to: string)
    requires row in g
    ensures Lookup(Write(g, row, col, v), from, to) == if from == row && to == col then Some(v) else Lookup(g, from, to)
  {
  }

  predicate Complete<V>(g: Grid<V>, froms: seq<string>, tos: seq<string>) {
    forall i, j :: 0 <= i < |froms| && 0 <= j < |tos| ==> Lookup(g, froms[i], tos[j]) != None
  }

  /** Tables with the same rows and the same cells are the same table. */
  lemma SameGrid<V>(a: Grid<V>, b: Grid<V>)
    requires a.Keys == b.Keys
    requires forall from, to :: Lookup(a, from, to) == Lookup(b, from, to)
    ensures a == b
  {
    forall from | from in a
      ensures a[from] == b[from]
    {
      forall to
        ensures to in a[from] <==> to in b[from]
        ensures to in a[from] ==> a[from][to] == b[from][to]
      {
        assert Lookup(a, from, to) == Lookup(b, from, to);
      }
      assert a[from].Keys == b[from].Keys;
    }
  }

  /** Cell-wise agreement, over the cells of the first table. */
  function Agreement(a: Grid<bool>, b: Grid<bool>): Grid<bool> {
    map from | from in a :: map to | to in a[from] :: a[from][to] == Cell(b, from, to)
  }

  /** A comparison has a cell where its first table has one, so it is complete whatever the second table holds. */
  lemma AgreementComplete(a: Grid<bool>, b: Grid<bool>, froms: seq<string>, tos: seq<string>)
    ensures Complete(Agreement(a, b), froms, tos) <==> Complete(a, froms, tos)
  {
    forall from, to
      ensures Lookup(Agreement(a, b), from, to) != None <==> Lookup(a, from, to) != None
    {
    }
  }

  ghost predicate SameShape<V, W>(a: Grid<V>, b: Grid<W>) {
    a.Keys == b.Keys && forall from :: from in a ==> a[from].Keys == b[from].Keys
  }

  lemma AgreementLookup(a: Grid<bool>, b: Grid<bool>, from: string, to: string)
    requires SameShape(a, b)
    ensures Lookup(Agreement(a, b), from, to) ==
            if Lookup(a, from, to) == None then None else Some(Lookup(a, from, to) == Lookup(b, from, to))
  {
    if from in a {
      assert from in b && a[from].Keys == b[from].Keys;
      assert to in a[from] <==> to in b[from];
      if to in a[from] {
        assert Agreement(a, b)[from][to] == (a[from][to] == b[from][to]);
      }
    }
  }

  /** Comparing is symmetric, a table agrees with itself everywhere, and comparing twice recovers the other table. */
  lemma CompareLaws(a: Grid<bool>, b: Grid<bool>)
    requires SameShape(a, b)
    ensures Agreement(a, b) == Agreement(b, a)
    ensures forall from, to :: Lookup(Agreement(a, a), from, to) != Some(false)
    ensures Agreement(a, Agreement(a, b)) == b
    ensures (forall from, to :: Lookup(Agreement(a, b), from, to) != Some(false)) <==> a == b
  {
    forall from, to
      ensures Lookup(Agreement(a, b), from, to) == Lookup(Agreement(b, a), from, to)
      ensures Lookup(Agreement(a, Agreement(a, b)), from, to) == Lookup(b, from, to)
    {
      AgreementLookup(a, b, from, to);
      AgreementLookup(b, a, from, to);
      AgreementLookup(a, Agreement(a, b), from, to);
    }
    SameGrid(Agreement(a, b), Agreement(b, a));
    SameGrid(Agreement(a, Agreement(a, b)), b);
    if forall from, to :: Lookup(Agreement(a, b), from, to) != Some(false) {
      forall from, to
        ensures Lookup(a, from, to) == Lookup(b, from, to)
      {
        AgreementLookup(a, b, from, to);
        assert Lookup(Agreement(a, b), from, to) != Some(false);
        assert Lookup(a, from, to) == None ==> Lookup(b, from, to) == None;
      }
      SameGrid(a, b);
    }
  }

  class TruthTable {
    const froms: seq<string>
    const tos: seq<string>
    const toSet: set<string>
    var values: Grid<bool>
    var bandwidths: Grid<Option<real>>

    constructor (froms: seq<string>, tos: seq<string>, default: Option<bool>)
      ensures this.froms == froms && this.tos == tos && toSet == (set to | to in tos)
      ensures values == NewGrid(froms, tos, default)
      ensures bandwidths == NewGrid(froms, tos, None)
    {
      var vs: Grid<bool>, bs: Grid<Option<real>> := map[], map[];
      for i := 0 to |froms|
        invariant vs == NewGrid(froms[..i], tos, default)
        invariant bs == NewGrid(froms[..i], tos, None)
      {
        var row: map<string, bool> := map[];
        for j := 0 to |tos|
          invariant row == if default.Some? then map to | to in tos[..j] :: default.value else map[]
        {
          assert tos[..j + 1] == tos[..j] + [tos[j]];
          if default.Some? {
            row := row[tos[j] := default.value];
          }
        }
        assert tos[..|tos|] == tos;
        assert froms[..i + 1] == froms[..i] + [froms[i]];
        vs, bs := vs[froms[i] := row], bs[froms[i] := map[]];
      }
      assert froms[..|froms|] == froms;
      this.froms, this.tos, this.values, this.bandwidths := froms, tos, vs, bs;
      toSet := set to | to in tos;
    }

    /** The table Compare builds: the given cells over this table's keys, and no bandwidths. */
    constructor Comparison(froms: seq<string>, tos: seq<string>, toSet: set<string>, values: Grid<bool>)
      ensures this.froms == froms && this.tos == tos && this.toSet == toSet && this.values == values
              && bandwidths == map[]
    {
      this.froms, this.tos, this.toSet, this.values, this.bandwidths := froms, tos, toSet, values, map[];
    }

    /** The inner loop of Compare. */
    method CompareRow(from: string, other: TruthTable) returns (row: map<string, bool>)
      requires from in values
      ensures row == Agreement(values, other.values)[from]
    {
      row := map[];
      var tosLeft := values[from].Keys;
      while tosLeft != {}
        invariant tosLeft <= values[from].Keys
        invariant row.Keys == values[from].Keys - tosLeft
        invariant forall to :: to in row ==> row[to] == (values[from][to] == Cell(other.values, from, to))
      {
        var to :| to in tosLeft;
        row := row[to := values[from][to] == Cell(other.values, from, to)];
        tosLeft := tosLeft - {to};
      }
    }

    /** Rows and columns are visited in the unspecified order of Go maps; a shorter other table is a panic. */
    method Compare(other: TruthTable) returns (comparison: TruthTable)
      requires |froms| <= |other.froms| && |tos| <= |other.tos|
      ensures fresh(comparison)
      ensures comparison.values == Agreement(values, other.values)
      ensures comparison.froms == froms && comparison.tos == tos && comparison.toSet == toSet
      ensures comparison.bandwidths == map[]
    {
      var result: Grid<bool> := map[];
      var fromsLeft := values.Keys;
      while fromsLeft != {}
        invariant fromsLeft <= values.Keys
        invariant result.Keys == values.Keys - fromsLeft
        invariant forall from :: from in result ==> result[from] == Agreement(values, other.values)[from]
      {
        var from :| from in fromsLeft;
        var row := CompareRow(from, other);
        result := result[from := row];
        fromsLeft := fromsLeft - {from};
      }
      comparison := new TruthTable.Comparison(froms, tos, toSet, result);
    }

    method IsComplete() returns (complete: bool)
      ensures complete <==> Complete(values, froms, tos)
    {
      for i := 0 to |froms|
        invariant forall k, j :: 0 <= k < i && 0 <= j < |tos| ==> Lookup(values, froms[k], tos[j]) != None
      {
        for j := 0 to |tos|
          invariant forall k :: 0 <= k < j ==> Lookup(values, froms[i], tos[k]) != None
        {
          if Lookup(values, froms[i], tos[j]) == None {
            return false;
          }
        }
      }
      return true;
    }

    method Set(from: string, to: string, value: bool)
      requires from in values
      modifies this`values
      ensures values == Write(old(values), from, to, value)
    {
      values := values[from := values[from][to := value]];
    }

    method SetBandwidth(from: string, to: string, bandwidth: Option<real>)
      requires from in bandwidths
      modifies this`bandwidths
      ensures bandwidths == Write(old(bandwidths), from, to, bandwidth)
    {
      bandwidths := bandwidths[from := bandwidths[from][to := bandwidth]];
    }

    method Get(from: string, to: string) returns (value: bool)
      ensures value == Cell(values, from, to)
      ensures value <==> from in values && to in values[from] && values[from][to]
    {
      value := from in values && to in values[from] && values[from][to];
    }

    method PrettyPrint(indent: string) returns (text: string)
      ensures text == Printed(values, froms, tos, indent)
    {
      var lines := [indent + Join(["-\t"] + tos, '\t')];
      for i := 0 to |froms|
        invariant lines == [indent + Join(["-\t"] + tos, '\t')] + PrintedRows(values, froms[..i], tos, indent)
      {
        var line := [froms[i]];
        for j := 0 to |tos|
          invariant line == [froms[i]] + PrintedCells(values, froms[i], tos[..j])
        {
          var mark := "X";
          if Lookup(values, froms[i], tos[j]) == None {
            mark := "?";
          } else if values[froms[i]][tos[j]] {
            mark := ".";
          }
          line := line + [mark + "\t"];
        }
        assert tos[..|tos|] == tos;
        lines := lines + [indent + Join(line, '\t')];
      }
      assert froms[..|froms|] == froms;
      text := Join(lines, '\n');
    }
  }

  // ---------- The printed form ----------

  function Mark(state: Option<bool>): string {
    match state
    case None => "?"
    case Some(true) => "."
    case Some(false) => "X"
  }

  function Unmark(mark: string): Option<bool> {
    if mark == "?" then None else Some(mark == ".")
  }

  function PrintedCells(g: Grid<bool>, from: string, tos: seq<string>): seq<string> {
    seq(|tos|, j requires 0 <= j < |tos| => Mark(Lookup(g, from, tos[j])) + "\t")
  }

  function PrintedRows(g: Grid<bool>, froms: seq<string>, tos: seq<string>, indent: string): seq<string> {
    seq(|froms|, i requires 0 <= i < |froms| => indent + Join([froms[i]] + PrintedCells(g, froms[i], tos), '\t'))
  }

  function Printed(g: Grid<bool>, froms: seq<string>, tos: seq<string>, indent: string): string {
    Join([indent + Join(["-\t"] + tos, '\t')] + PrintedRows(g, froms, tos, indent), '\n')
  }

  /** The states of one row, in column order. */
  function States(g: Grid<bool>, from: string, tos: seq<string>): seq<Option<bool>> {
    seq(|tos|, j requires 0 <= j < |tos| => Lookup(g, from, tos[j]))
  }

  datatype Reading = Reading(tos: seq<string>, rows: seq<(string, seq<Option<bool>>)>)

  /** Reads a printed table back, knowing only how long the indent is. */
  function ReadRow(line: string, indent: nat): (string, seq<Option<bool>>) {
    var pieces := Split(line, '\t');
    var name := if indent <= |pieces[0]| then pieces[0][indent..] else "";
    (name, Marks(pieces[1..]))
  }

  /** Every other piece is a mark; the pieces between are empty. */
  function Marks(pieces: seq<string>): seq<Option<bool>> {
    if |pieces| < 2 then [] else [Unmark(pieces[0])] + Marks(pieces[2..])
  }

  function ReadBack(text: string, indent: nat): Reading {
    var lines := Split(text, '\n');
    var header := Split(lines[0], '\t');
    Reading(if |header| >= 2 then header[2..] else [],
            seq(|lines| - 1, i requires 0 <= i < |lines| - 1 => ReadRow(lines[1 + i], indent)))
  }

  // A printed cell ends in a tab of its own, so it splits into its mark and an empty piece.
  function Fields(states: seq<Option<bool>>): (r: seq<string>)
    ensures Free(r, '\t') && Free(r, '\n')
  {
    if states == [] then []
    else [Mark(states[0]), ""] + Fields(states[1..])
  }

  lemma JoinPrefix(h: string, x: string, rest: seq<string>, sep: char)
    ensures Join([h + x] + rest, sep) == h + Join([x] + rest, sep)
  {
    if rest == [] {
      assert [h + x] + rest == [h + x] && [x] + rest == [x];
    } else {
      assert ([h + x] + rest)[1..] == rest && ([x] + rest)[1..] == rest;
    }
  }

  lemma JoinCons(head: string, rest: seq<string>, sep: char)
    requires rest != []
    ensures Join([head] + rest, sep) == head + [sep] + Join(rest, sep)
  {
    assert ([head] + rest)[1..] == rest;
  }

  lemma PrintedNext(g: Grid<bool>, from: string, tos: seq<string>)
    requires tos != []
    ensures PrintedCells(g, from, tos) == [Mark(Lookup(g, from, tos[0])) + "\t"] + PrintedCells(g, from, tos[1..])
    ensures Fields(States(g, from, tos)) == [Mark(Lookup(g, from, tos[0])), ""] + Fields(States(g, from, tos[1..]))
  {
    assert States(g, from, tos)[1..] == States(g, from, tos[1..]);
  }

  lemma {:induction false} JoinCells(g: Grid<bool>, from: string, tos: seq<string>, head: string)
    ensures Join([head] + PrintedCells(g, from, tos), '\t') == Join([head] + Fields(States(g, from, tos)), '\t')
    decreases tos
  {
    if tos != [] {
      var mark := Mark(Lookup(g, from, tos[0]));
      PrintedNext(g, from, tos);
      JoinCells(g, from, tos[1..], "");
      JoinMarked(head, mark, PrintedCells(g, from, tos[1..]));
      JoinFields(head, mark, Fields(States(g, from, tos[1..])));
    }
  }

  lemma JoinFields(head: string, mark: string, fields: seq<string>)
    ensures Join([head] + ([mark, ""] + fields), '\t')
            == head + ['\t'] + (mark + ['\t'] + Join([""] + fields, '\t'))
  {
    assert [mark, ""] + fields == [mark] + ([""] + fields);
    JoinCons(head, [mark] + ([""] + fields), '\t');
    JoinCons(mark, [""] + fields, '\t');
  }

  lemma JoinMarked(head: string, mark: string, cells: seq<string>)
    ensures Join([head] + ([mark + "\t"] + cells), '\t')
            == head + ['\t'] + (mark + ['\t'] + Join([""] + cells, '\t'))
  {
    JoinCons(head, [mark + "\t"] + cells, '\t');
    JoinPrefix(mark + "\t", "", cells, '\t');
    assert mark + "\t" + "" == mark + "\t";
  }

  ghost predicate Plain(s: string) {
    '\t' !in s && '\n' !in s
  }

  /** A row splits into its name and the fields of its cells. */
  lemma SplitPrintedRow(g: Grid<bool>, from: string, tos: seq<string>, indent: string)
    requires Plain(from) && Plain(indent)
    ensures var line := indent + Join([from] + PrintedCells(g, from, tos), '\t');
            Split(line, '\t') == [indent + from] + Fields(States(g, from, tos)) && '\n' !in line
  {
    var states := States(g, from, tos);
    var pieces := [indent + from] + Fields(states);
    JoinCells(g, from, tos, from);
    JoinPrefix(indent, from, Fields(states), '\t');
    assert Free(pieces, '\t') && Free(pieces, '\n');
    SplitOfJoin(pieces, '\t');
    JoinWithout(pieces, '\t', '\n');
  }

  lemma {:induction false} MarksOfFields(states: seq<Option<bool>>)
    ensures Marks(Fields(states)) == states
  {
    if states != [] {
      MarksOfFields(states[1..]);
      var fields := Fields(states[1..]);
      assert ([Mark(states[0]), ""] + fields)[2..] == fields;
      assert Unmark(Mark(states[0])) == states[0];
      assert [states[0]] + states[1..] == states;
    }
  }

  lemma ReadPrintedRow(g: Grid<bool>, from: string, tos: seq<string>, indent: string)
    requires Plain(from) && Plain(indent)
    ensures var line := indent + Join([from] + PrintedCells(g, from, tos), '\t');
            ReadRow(line, |indent|) == (from, States(g, from, tos)) && '\n' !in line
  {
    SplitPrintedRow(g, from, tos, indent);
    MarksOfFields(States(g, from, tos));
    var pieces := [indent + from] + Fields(States(g, from, tos));
    assert pieces[0][|indent|..] == from && pieces[1..] == Fields(States(g, from, tos));
  }

  lemma JoinHeader(tos: seq<string>, indent: string)
    ensures indent + Join(["-\t"] + tos, '\t') == Join([indent + "-", ""] + tos, '\t')
  {
    var rest := Join([""] + tos, '\t');
    assert "-\t" + "" == "-\t";
    JoinPrefix("-\t", "", tos, '\t');
    JoinCons(indent + "-", [""] + tos, '\t');
    assert [indent + "-", ""] + tos == [indent + "-"] + ([""] + tos);
    TabBetween(indent, "-", rest);
  }

  lemma TabBetween(a: string, b: string, c: string)
    ensures a + (b + "\t" + c) == a + b + ['\t'] + c
  {
  }

  lemma FreeHeader(tos: seq<string>, indent: string, c: char)
    requires c !in indent && c != '-' && forall j :: 0 <= j < |tos| ==> c !in tos[j]
    ensures Free([indent + "-", ""] + tos, c)
  {
    var pieces := [indent + "-", ""] + tos;
    forall i | 0 <= i < |pieces|
      ensures c !in pieces[i]
    {
      assert pieces[i] == if i == 0 then indent + "-" else if i == 1 then "" else tos[i - 2];
    }
  }

  lemma SplitHeader(tos: seq<string>, indent: string)
    requires Plain(indent) && forall j :: 0 <= j < |tos| ==> Plain(tos[j])
    ensures var header := indent + Join(["-\t"] + tos, '\t');
            Split(header, '\t') == [indent + "-", ""] + tos && '\n' !in header
  {
    var pieces := [indent + "-", ""] + tos;
    JoinHeader(tos, indent);
    FreeHeader(tos, indent, '\t');
    FreeHeader(tos, indent, '\n');
    SplitOfJoin(pieces, '\t');
    JoinWithout(pieces, '\t', '\n');
  }

  /** A row with a cell of each state, as it is printed below the header. */
  lemma PrintedExample(indent: string)
    ensures Printed(map["r" := map["x" := true, "y" := false]], ["r"], ["x", "y", "z"], indent)
            == indent + "-\t\tx\ty\tz\n" + indent + "r\t.\t\tX\t\t?\t"
  {
    var g := map["r" := map["x" := true, "y" := false]];
    var tos := ["x", "y", "z"];
    assert Lookup(g, "r", "x") == Some(true) && Lookup(g, "r", "y") == Some(false) && Lookup(g, "r", "z") == None;
    assert "." + "\t" == ".\t" && "X" + "\t" == "X\t" && "?" + "\t" == "?\t";
    assert PrintedCells(g, "r", tos) == [".\t", "X\t", "?\t"];
    JoinFour("-\t", "x", "y", "z");
    JoinFour("r", ".\t", "X\t", "?\t");
    assert ["-\t"] + tos == ["-\t", "x", "y", "z"] && ["r"] + [".\t", "X\t", "?\t"] == ["r", ".\t", "X\t", "?\t"];
    var header, row := indent + "-\t\tx\ty\tz", indent + "r\t.\t\tX\t\t?\t";
    assert "-\t" + "\t" + "x" + "\t" + "y" + "\t" + "z" == "-\t\tx\ty\tz";
    assert "r" + "\t" + ".\t" + "\t" + "X\t" + "\t" + "?\t" == "r\t.\t\tX\t\t?\t";
    assert PrintedRows(g, ["r"], tos, indent) == [row];
    JoinCons(header, [row], '\n');
  }

  lemma JoinFour(a: string, b: string, c: string, d: string)
    ensures Join([a, b, c, d], '\t') == a + "\t" + b + "\t" + c + "\t" + d
  {
    JoinCons(a, [b, c, d], '\t');
    JoinCons(b, [c, d], '\t');
    JoinCons(c, [d], '\t');
    assert [a] + [b, c, d] == [a, b, c, d] && [b] + [c, d] == [b, c, d] && [c] + [d] == [c, d];
    assert a + "\t" + (b + "\t" + (c + "\t" + d)) == a + "\t" + b + "\t" + c + "\t" + d;
  }

  lemma LinesFree(header: string, rows: seq<string>)
    requires '\n' !in header && Free(rows, '\n')
    ensures Free([header] + rows, '\n')
  {
  }

  /** The printed matrix is lossless: every name and the three-way state of every cell can be read back. */
  lemma PrintIsLossless(g: Grid<bool>, froms: seq<string>, tos: seq<string>, indent: string)
    requires Plain(indent)
    requires forall i :: 0 <= i < |froms| ==> Plain(froms[i])
    requires forall j :: 0 <= j < |tos| ==> Plain(tos[j])
    ensures ReadBack(Printed(g, froms, tos, indent), |indent|) ==
            Reading(tos, seq(|froms|, i requires 0 <= i < |froms| => (froms[i], States(g, froms[i], tos))))
  {
    var header := indent + Join(["-\t"] + tos, '\t');
    SplitHeader(tos, indent);
    assert ([indent + "-", ""] + tos)[2..] == tos;

    var rows := PrintedRows(g, froms, tos, indent);
    forall i | 0 <= i < |froms|
      ensures ReadRow(rows[i], |indent|) == (froms[i], States(g, froms[i], tos)) && '\n' !in rows[i]
    {
      ReadPrintedRow(g, froms[i], tos, indent);
    }
    LinesFree(header, rows);
    SplitOfJoin([header] + rows, '\n');
  }
}
