// Expectation rules, observations and the summary of a matrix (pkg/matrix/reachability.go).
module Reachabilities {
  import opened Text
  import opened Entities
  import opened TruthTables
  import opened Slices

  const BENCHMARK_MEGABYTES_PER_SECOND := 10.0

  /** An empty component matches everything. */
  datatype Peer = Peer(namespace: string, pod: string) {
    predicate Matches(pod: string)
      requires |Split(pod, '/')| >= 3
    {
      (namespace == "" || namespace == NamespaceOf(pod)) && (this.pod == "" || this.pod == PodNameOf(pod))
    }
  }

  /** On the key of a pod, matching is the field-wise wildcard test, whatever the pod's node. */
  lemma MatchesFieldwise(peer: Peer, node: string, ns: string, name: string)
    requires NoSlash(node, ns, name)
    ensures |Split(NewPodString(node, ns, name), '/')| >= 3
    ensures peer.Matches(NewPodString(node, ns, name)) <==>
            (peer.namespace == "" || peer.namespace == ns) && (peer.pod == "" || peer.pod == name)
  {
    PodStringRoundTrip(node, ns, name);
  }

  // ---------- Expectation rules ----------

  datatype Rule = Rule(from: Peer, to: Peer, connected: bool)

  ghost predicate Splittable(names: seq<string>) {
    forall name :: name in names ==> |Split(name, '/')| >= 3
  }

  ghost predicate Hits(rule: Rule, names: seq<string>, from: string, to: string)
    requires Splittable(names)
  {
    from in names && to in names && rule.from.Matches(from) && rule.to.Matches(to)
  }

  ghost function Selected(peer: Peer, names: seq<string>): set<string>
    requires Splittable(names)
  {
    set name | name in names && peer.Matches(name)
  }

  /** A table with one value put into the given columns of the given rows. */
  ghost function Fill(g: Grid<bool>, rows: set<string>, cols: set<string>, v: bool): Grid<bool> {
    map from | from in g :: if from in rows then g[from] + (map to | to in cols :: v) else g[from]
  }

  /** What one rule leaves in a table: its verdict in the columns it selects of every row it selects. */
  ghost function ApplyRule(g: Grid<bool>, rule: Rule, names: seq<string>): Grid<bool>
    requires Splittable(names)
  {
    Fill(g, Selected(rule.from, names), Selected(rule.to, names), rule.connected)
  }

  ghost function ApplyRules(g: Grid<bool>, rules: seq<Rule>, names: seq<string>): Grid<bool>
    requires Splittable(names)
  {
    if rules == [] then g
    else ApplyRule(ApplyRules(g, rules[..|rules| - 1], names), rules[|rules| - 1], names)
  }

  lemma FillLookup(g: Grid<bool>, rows: set<string>, cols: set<string>, v: bool, from: string, to: string)
    ensures Lookup(Fill(g, rows, cols, v), from, to) ==
            if from in g && from in rows && to in cols then Some(v) else Lookup(g, from, to)
  {
  }

  lemma FillNothing(g: Grid<bool>, rows: set<string>, cols: set<string>, v: bool)
    requires rows == {} || cols == {}
    ensures Fill(g, rows, cols, v) == g
  {
    forall f, t
      ensures Lookup(Fill(g, rows, cols, v), f, t) == Lookup(g, f, t)
    {
      FillLookup(g, rows, cols, v, f, t);
    }
    SameGrid(Fill(g, rows, cols, v), g);
  }

  /** One more column of the inner loop. */
  lemma NextColumn(g: Grid<bool>, row: string, cols: set<string>, to: string, v: bool)
    requires row in g
    ensures Fill(g, {row}, cols + {to}, v) == Write(Fill(g, {row}, cols, v), row, to, v)
  {
    var a, b := Fill(g, {row}, cols + {to}, v), Write(Fill(g, {row}, cols, v), row, to, v);
    forall f, t
      ensures Lookup(a, f, t) == Lookup(b, f, t)
    {
      FillLookup(g, {row}, cols + {to}, v, f, t);
      FillLookup(g, {row}, cols, v, f, t);
      WriteLookup(Fill(g, {row}, cols, v), row, to, v, f, t);
    }
    SameGrid(a, b);
  }

  /** One more row of the outer loop. */
  lemma NextRow(g: Grid<bool>, rows: set<string>, row: string, cols: set<string>, v: bool)
    ensures Fill(g, rows + {row}, cols, v) == Fill(Fill(g, rows, cols, v), {row}, cols, v)
  {
    var a, b := Fill(g, rows + {row}, cols, v), Fill(Fill(g, rows, cols, v), {row}, cols, v);
    forall f, t
      ensures Lookup(a, f, t) == Lookup(b, f, t)
    {
      FillLookup(g, rows + {row}, cols, v, f, t);
      FillLookup(g, rows, cols, v, f, t);
      FillLookup(Fill(g, rows, cols, v), {row}, cols, v, f, t);
    }
    SameGrid(a, b);
  }

  lemma SelectOneMore(peer: Peer, names: seq<string>, i: nat)
    requires Splittable(names) && i < |names|
    ensures Splittable(names[..i]) && Splittable(names[..i + 1])
    ensures Selected(peer, names[..i + 1]) ==
            Selected(peer, names[..i]) + if peer.Matches(names[i]) then {names[i]} else {}
  {
    assert names[..i + 1] == names[..i] + [names[i]];
  }

  /** The verdict of the last rule that hits a cell. */
  ghost function LastVerdict(rules: seq<Rule>, names: seq<string>, from: string, to: string): Option<bool>
    requires Splittable(names)
    decreases |rules|
  {
    if rules == [] then None
    else
      var last := rules[|rules| - 1];
      if Hits(last, names, from, to) then Some(last.connected)
      else LastVerdict(rules[..|rules| - 1], names, from, to)
  }

  ghost function Expectation(default: bool, rules: seq<Rule>, names: seq<string>, from: string, to: string): bool
    requires Splittable(names)
  {
    match LastVerdict(rules, names, from, to)
    case Some(connected) => connected
    case None => default
  }

  /** Rows and cells of a table are exactly the pairs of the given names. */
  ghost predicate Square<V>(g: Grid<V>, names: seq<string>) {
    g.Keys == (set name | name in names)
    && forall from, to :: Lookup(g, from, to) != None <==> from in names && to in names
  }

  lemma {:induction false} RulesLookup(names: seq<string>, default: bool, rules: seq<Rule>, from: string, to: string)
    requires Splittable(names)
    ensures ApplyRules(NewGrid(names, names, Some(default)), rules, names).Keys == set name | name in names
    ensures Lookup(ApplyRules(NewGrid(names, names, Some(default)), rules, names), from, to) ==
            if from in names && to in names then Some(Expectation(default, rules, names, from, to)) else None
    decreases |rules|
  {
    var blank := NewGrid(names, names, Some(default));
    if rules != [] {
      var front, last := rules[..|rules| - 1], rules[|rules| - 1];
      RulesLookup(names, default, front, from, to);
      FillLookup(ApplyRules(blank, front, names), Selected(last.from, names), Selected(last.to, names), last.connected,
                 from, to);
    }
  }

  /**
   * Whatever the rules, every cell holds the verdict of the last one that hits it, else the default; no key is added.
   */
  lemma LastRuleWins(names: seq<string>, default: bool, rules: seq<Rule>)
    requires Splittable(names)
    ensures var g := ApplyRules(NewGrid(names, names, Some(default)), rules, names);
            && Square(g, names)
            && forall from, to :: Lookup(g, from, to) ==
                                  if from in names && to in names
                                  then Some(Expectation(default, rules, names, from, to)) else None
  {
    var g := ApplyRules(NewGrid(names, names, Some(default)), rules, names);
    forall from, to
      ensures Lookup(g, from, to) ==
              if from in names && to in names then Some(Expectation(default, rules, names, from, to)) else None
    {
      RulesLookup(names, default, rules, from, to);
    }
    RulesLookup(names, default, rules, "", "");
  }

  /** What one rule does to the cell of two pods, by their namespaces and names. */
  lemma RuleCell(g: Grid<bool>, rule: Rule, names: seq<string>, node: string, ns: string, name: string,
                 node': string, ns': string, name': string)
    requires Splittable(names) && NoSlash(node, ns, name) && NoSlash(node', ns', name')
    ensures var from, to := node + "/" + ns + "/" + name, node' + "/" + ns' + "/" + name';
            from in names && to in names && from in g ==>
              Lookup(ApplyRule(g, rule, names), from, to)
              == if (rule.from.namespace == "" || rule.from.namespace == ns)
                    && (rule.from.pod == "" || rule.from.pod == name)
                    && (rule.to.namespace == "" || rule.to.namespace == ns')
                    && (rule.to.pod == "" || rule.to.pod == name')
                 then Some(rule.connected) else Lookup(g, from, to)
  {
    MatchesFieldwise(rule.from, node, ns, name);
    MatchesFieldwise(rule.to, node', ns', name');
    FillLookup(g, Selected(rule.from, names), Selected(rule.to, names), rule.connected, NewPodString(node, ns, name),
               NewPodString(node', ns', name'));
  }

  /** A pair is expected to connect by the default until a rule matches both pods, each rule overriding those before. */
  lemma RuleByRule(default: bool, rules: seq<Rule>, rule: Rule, names: seq<string>, node: string, ns: string,
                   name: string, node': string, ns': string, name': string)
    requires Splittable(names) && NoSlash(node, ns, name) && NoSlash(node', ns', name')
    ensures var from, to := node + "/" + ns + "/" + name, node' + "/" + ns' + "/" + name';
            from in names && to in names ==>
              && Expectation(default, [], names, from, to) == default
              && Expectation(default, rules + [rule], names, from, to)
                 == if (rule.from.namespace == "" || rule.from.namespace == ns)
                       && (rule.from.pod == "" || rule.from.pod == name)
                       && (rule.to.namespace == "" || rule.to.namespace == ns')
                       && (rule.to.pod == "" || rule.to.pod == name')
                    then rule.connected else Expectation(default, rules, names, from, to)
  {
    MatchesFieldwise(rule.from, node, ns, name);
    MatchesFieldwise(rule.to, node', ns', name');
    assert (rules + [rule])[..|rules|] == rules;
  }

  ghost predicate SomeHit(rules: multiset<Rule>, names: seq<string>, from: string, to: string)
    requires Splittable(names)
  {
    exists rule :: rule in rules && Hits(rule, names, from, to)
  }

  lemma {:induction false} OneVerdict(rules: seq<Rule>, names: seq<string>, connected: bool, from: string, to: string)
    requires Splittable(names)
    requires forall i :: 0 <= i < |rules| ==> rules[i].connected == connected
    ensures LastVerdict(rules, names, from, to) ==
            if SomeHit(multiset(rules), names, from, to) then Some(connected) else None
    decreases |rules|
  {
    if rules != [] {
      var front, last := rules[..|rules| - 1], rules[|rules| - 1];
      assert rules == front + [last];
      OneVerdict(front, names, connected, from, to);
      assert multiset(rules) == multiset(front) + multiset{last};
      assert last in multiset(rules);
    }
  }

  /** Rules that all carry the same verdict may be issued in any order, as they are when read from a Go map. */
  lemma OneVerdictAnyOrder(names: seq<string>, default: bool, rules: seq<Rule>, shuffled: seq<Rule>, connected: bool)
    requires Splittable(names) && multiset(rules) == multiset(shuffled)
    requires forall i :: 0 <= i < |rules| ==> rules[i].connected == connected
    ensures ApplyRules(NewGrid(names, names, Some(default)), rules, names)
            == ApplyRules(NewGrid(names, names, Some(default)), shuffled, names)
  {
    var blank := NewGrid(names, names, Some(default));
    var a, b := ApplyRules(blank, rules, names), ApplyRules(blank, shuffled, names);
    forall i | 0 <= i < |shuffled|
      ensures shuffled[i].connected == connected
    {
      assert shuffled[i] in multiset(shuffled);
      assert shuffled[i] in rules;
    }
    forall from, to
      ensures Lookup(a, from, to) == Lookup(b, from, to)
    {
      RulesLookup(names, default, rules, from, to);
      RulesLookup(names, default, shuffled, from, to);
      OneVerdict(rules, names, connected, from, to);
      OneVerdict(shuffled, names, connected, from, to);
    }
    RulesLookup(names, default, rules, "", "");
    RulesLookup(names, default, shuffled, "", "");
    SameGrid(a, b);
  }

  // ---------- Scoring ----------

  /** A bandwidth is stored in bits per second. */
  predicate TooSlow(bandwidth: real) {
    bandwidth / 8000000.0 < BENCHMARK_MEGABYTES_PER_SECOND
  }

  /** A pair fails on a wrong connection or, when measuring, on a measured connection that is too slow. */
  predicate Fails(expected: bool, connected: bool, rate: Option<real>, measure: bool) {
    expected != connected || (measure && connected && rate.Some? && TooSlow(rate.value))
  }

  type Pair = (string, string)

  function Cells(g: Grid<bool>): set<Pair> {
    set from, to | from in g && to in g[from] :: (from, to)
  }

  /** What a summary is taken of, and how. */
  datatype Score = Score(
    expected: Grid<bool>,
    observed: Grid<bool>,
    rates: Grid<Option<real>>,
    ignoreLoopback: bool,
    measure: bool)

  datatype Kind = Right | Wrong | Ignored

  function KindOf(s: Score, p: Pair): Kind {
    if s.ignoreLoopback && p.0 == p.1 then Ignored
    else if Fails(Cell(s.expected, p.0, p.1), Cell(s.observed, p.0, p.1), Rate(s.rates, p.0, p.1), s.measure) then Wrong
    else Right
  }

  function OfKind(s: Score, kind: Kind, cells: set<Pair>): set<Pair> {
    set p | p in cells && KindOf(s, p) == kind
  }

  /** How many cells of the expected table are of one kind. */
  function Count(s: Score, kind: Kind): nat {
    |OfKind(s, kind, Cells(s.expected))|
  }

  lemma CountOneMore(s: Score, cells: set<Pair>, p: Pair, kind: Kind)
    requires p !in cells
    ensures |OfKind(s, kind, cells + {p})| == |OfKind(s, kind, cells)| + if KindOf(s, p) == kind then 1 else 0
  {
    if KindOf(s, p) == kind {
      assert OfKind(s, kind, cells + {p}) == OfKind(s, kind, cells) + {p};
    } else {
      assert OfKind(s, kind, cells + {p}) == OfKind(s, kind, cells);
    }
  }

  lemma {:induction false} DistinctSize(s: seq<string>)
    requires Distinct(s)
    ensures |set x | x in s| == |s|
  {
    if s == [] {
      assert (set x | x in s) == {};
    } else {
      var front, last := s[..|s| - 1], s[|s| - 1];
      DistinctSize(front);
      assert (set x | x in s) == (set x | x in front) + {last};
    }
  }

  function Product(rows: set<string>, cols: set<string>): set<Pair> {
    set from, to | from in rows && to in cols :: (from, to)
  }

  lemma {:induction false} RowSize(from: string, cols: set<string>)
    ensures |Product({from}, cols)| == |cols|
  {
    if cols == {} {
      assert Product({from}, cols) == {};
    } else {
      var to :| to in cols;
      RowSize(from, cols - {to});
      assert Product({from}, cols) == Product({from}, cols - {to}) + {(from, to)};
    }
  }

  lemma OneMoreTimes(n: nat, m: nat)
    ensures (n + 1) * m == n * m + m
  {
  }

  lemma OneMoreRow(rows: set<string>, from: string, cols: set<string>)
    requires from !in rows
    ensures |Product(rows + {from}, cols)| == |Product(rows, cols)| + |Product({from}, cols)|
  {
    assert Product(rows + {from}, cols) == Product(rows, cols) + Product({from}, cols);
    assert Product(rows, cols) !! Product({from}, cols);
  }

  lemma {:induction false} ProductSize(rows: set<string>, cols: set<string>)
    ensures |Product(rows, cols)| == |rows| * |cols|
  {
    if rows == {} {
      assert Product(rows, cols) == {};
    } else {
      var from :| from in rows;
      ProductSize(rows - {from}, cols);
      RowSize(from, cols);
      OneMoreTimes(|rows - {from}|, |cols|);
      OneMoreRow(rows - {from}, from, cols);
      assert rows - {from} + {from} == rows;
    }
  }

  function Diagonal(names: set<string>): set<Pair> {
    set name | name in names :: (name, name)
  }

  lemma {:induction false} DiagonalSize(names: set<string>)
    ensures |Diagonal(names)| == |names|
  {
    if names == {} {
      assert Diagonal(names) == {};
    } else {
      var name :| name in names;
      DiagonalSize(names - {name});
      assert Diagonal(names) == Diagonal(names - {name}) + {(name, name)};
    }
  }

  lemma {:induction false} KindsPartition(s: Score, cells: set<Pair>)
    ensures |OfKind(s, Right, cells)| + |OfKind(s, Wrong, cells)| + |OfKind(s, Ignored, cells)| == |cells|
  {
    if cells == {} {
      assert forall kind :: OfKind(s, kind, cells) == {};
    } else {
      var p :| p in cells;
      KindsPartition(s, cells - {p});
      CountOneMore(s, cells - {p}, p, Right);
      CountOneMore(s, cells - {p}, p, Wrong);
      CountOneMore(s, cells - {p}, p, Ignored);
      assert cells - {p} + {p} == cells;
    }
  }

  lemma SquareCells(g: Grid<bool>, names: seq<string>)
    requires Distinct(names) && Square(g, names)
    ensures Cells(g) == Product(set name | name in names, set name | name in names)
    ensures |Cells(g)| == |names| * |names|
  {
    var keys := set name | name in names;
    DistinctSize(names);
    ProductSize(keys, keys);
    forall from, to
      ensures (from, to) in Cells(g) <==> (from, to) in Product(keys, keys)
    {
      assert (from, to) in Cells(g) <==> Lookup(g, from, to) != None;
    }
    assert Cells(g) == Product(keys, keys);
  }

  /** The three counts partition the n x n pairs; exactly the n loopback pairs are ignored when they are to be. */
  lemma CountsPartition(s: Score, names: seq<string>)
    requires Distinct(names) && Square(s.expected, names)
    ensures Count(s, Right) + Count(s, Wrong) + Count(s, Ignored) == |names| * |names|
    ensures Count(s, Ignored) == if s.ignoreLoopback then |names| else 0
  {
    SquareCells(s.expected, names);
    KindsPartition(s, Cells(s.expected));
    var keys := set name | name in names;
    DistinctSize(names);
    DiagonalSize(keys);
    assert OfKind(s, Ignored, Cells(s.expected)) == if s.ignoreLoopback then Diagonal(keys) else {};
  }

  /** Unmeasured, nothing is wrong exactly when every counted pair agrees, a missing observation being read as false. */
  lemma NothingWrong(s: Score, names: seq<string>)
    requires Square(s.expected, names) && !s.measure
    ensures Count(s, Wrong) == 0 <==>
            forall from, to :: from in names && to in names && !(s.ignoreLoopback && from == to)
                               ==> (Lookup(s.expected, from, to) == Some(true) <==>
                                    Lookup(s.observed, from, to) == Some(true))
  {
    var wrong := OfKind(s, Wrong, Cells(s.expected));
    if wrong == {} {
      forall from, to | from in names && to in names && !(s.ignoreLoopback && from == to)
        ensures Cell(s.expected, from, to) == Cell(s.observed, from, to)
      {
        assert (from, to) in Cells(s.expected) && (from, to) !in wrong;
      }
    } else {
      var p :| p in wrong;
      assert p.0 in names && p.1 in names;
    }
  }

  /** Measured, a connection must in addition be no slower than 80,000,000 bits per second, if that is known. */
  lemma NothingWrongMeasured(s: Score, names: seq<string>)
    requires Square(s.expected, names) && s.measure
    ensures Count(s, Wrong) == 0 <==>
            forall from, to :: from in names && to in names && !(s.ignoreLoopback && from == to)
                               ==> (Lookup(s.expected, from, to) == Some(true) <==>
                                    Lookup(s.observed, from, to) == Some(true))
                                   && (Lookup(s.observed, from, to) == Some(true) ==>
                                         forall b :: Lookup(s.rates, from, to) == Some(Some(b)) ==> b >= 80000000.0)
  {
    var wrong := OfKind(s, Wrong, Cells(s.expected));
    forall from, to
      ensures (from, to) in wrong <==>
              from in names && to in names && KindOf(s, (from, to)) == Wrong
    {
      assert (from, to) in Cells(s.expected) <==> Lookup(s.expected, from, to) != None;
    }
    forall p | p in wrong
      ensures p == (p.0, p.1) && p.0 in names && p.1 in names
    {
    }
    forall from, to
      ensures KindOf(s, (from, to)) == Wrong <==>
              !(s.ignoreLoopback && from == to)
              && !((Lookup(s.expected, from, to) == Some(true) <==> Lookup(s.observed, from, to) == Some(true))
                   && (Lookup(s.observed, from, to) == Some(true) ==>
                         forall b :: Lookup(s.rates, from, to) == Some(Some(b)) ==> b >= 80000000.0))
    {
      KindExactly(s, (from, to));
    }
    if wrong != {} {
      var p :| p in wrong;
      assert (p.0, p.1) in wrong;
    }
  }

  /** When a cell is ignored, when it is wrong, and that it is right otherwise. */
  lemma KindExactly(s: Score, p: Pair)
    ensures KindOf(s, p) == Ignored <==> s.ignoreLoopback && p.0 == p.1
    ensures var expected := Lookup(s.expected, p.0, p.1) == Some(true);
            var connected := Lookup(s.observed, p.0, p.1) == Some(true);
            KindOf(s, p) == Wrong <==>
            !(s.ignoreLoopback && p.0 == p.1)
            && (expected != connected
                || (s.measure && connected
                    && exists b :: Lookup(s.rates, p.0, p.1) == Some(Some(b)) && b < 80000000.0))
  {
    var rate := Lookup(s.rates, p.0, p.1);
    if rate.Some? && rate.value.Some? && rate.value.value < 80000000.0 {
      assert rate == Some(Some(rate.value.value));
    }
  }

  /**
   * After any rules on a new table the comparison is complete, even against observations that are not: in particular
   * against none at all.
   */
  lemma NeverIncomplete(names: seq<string>, default: bool, rules: seq<Rule>, observed: Grid<bool>)
    requires Splittable(names)
    ensures Complete(Agreement(ApplyRules(NewGrid(names, names, Some(default)), rules, names), observed), names, names)
    ensures names != [] ==> !Complete(NewGrid<bool>(names, names, None), names, names)
  {
    var g := ApplyRules(NewGrid(names, names, Some(default)), rules, names);
    LastRuleWins(names, default, rules);
    AgreementComplete(g, observed, names, names);
    assert Complete(g, names, names) by {
      assert forall i :: 0 <= i < |names| ==> names[i] in names;
    }
    if names != [] {
      assert Lookup(NewGrid<bool>(names, names, None), names[0], names[0]) == None;
    }
  }

  // ---------- The reachability of a test case ----------

  function Keys(pods: seq<Pod>): (names: seq<string>)
    reads pods
    ensures |names| == |pods|
    ensures forall i :: 0 <= i < |pods| ==> names[i] == pods[i].PodString()
  {
    seq(|pods|, i requires 0 <= i < |pods| reads pods => pods[i].PodString())
  }

  method ListKeys(pods: seq<Pod>) returns (podNames: seq<string>)
    ensures podNames == Keys(pods)
  {
    podNames := [];
    for i := 0 to |pods|
      invariant |podNames| == i && forall k :: 0 <= k < i ==> podNames[k] == pods[k].PodString()
    {
      podNames := podNames + [pods[i].PodString()];
    }
  }

  lemma KeysSplit(pods: seq<Pod>)
    ensures Splittable(Keys(pods))
  {
    forall i | 0 <= i < |pods|
      ensures |Split(Keys(pods)[i], '/')| >= 3
    {
      BuiltSplits(pods[i].nodeName, pods[i].namespace, pods[i].name);
    }
  }

  /** The cells of the rows that are not left to visit. */
  ghost function Outside(g: Grid<bool>, left: set<string>): set<Pair> {
    set p | p in Cells(g) && p.0 !in left
  }

  lemma OutsideNext(g: Grid<bool>, left: set<string>, from: string)
    requires from in left && left <= g.Keys
    ensures Outside(g, left - {from}) == Outside(g, left) + Product({from}, g[from].Keys)
    ensures Outside(g, left) !! Product({from}, g[from].Keys)
  {
  }

  class Reachability {
    const expected: TruthTable
    const observed: TruthTable
    const pods: Slice

    /** The tables are named after the pods as they are now; rules look at the pods the slice shows later. */
    constructor (pods: Slice, defaultExpectation: bool)
      requires pods.Valid()
      ensures this.pods == pods && fresh(expected) && fresh(observed) && expected != observed
      ensures var names := Keys(pods.Contents());
              && expected.values == NewGrid(names, names, Some(defaultExpectation))
              && observed.values == NewGrid(names, names, None)
              && observed.bandwidths == NewGrid(names, names, None)
              && expected.froms == expected.tos == observed.froms == observed.tos == names
    {
      var podNames := ListKeys(pods.Contents());
      this.pods := pods;
      expected := new TruthTable(podNames, podNames, Some(defaultExpectation));
      observed := new TruthTable(podNames, podNames, None);
      new;
      assert Keys(pods.Contents()) == podNames;
    }

    /** Setting a cell in a missing row panics, so the row of every pod the rule selects must exist. */
    method ExpectPeer(from: Peer, to: Peer, connected: bool)
      requires pods.Valid() && Splittable(Keys(pods.Contents()))
      requires forall p, q :: p in pods.Contents() && from.Matches(p.PodString())
                              && q in pods.Contents() && to.Matches(q.PodString()) ==>
                                p.PodString() in expected.values
      modifies expected`values
      ensures expected.values == ApplyRule(old(expected.values), Rule(from, to, connected), Keys(pods.Contents()))
    {
      ExpectRows(pods.Contents(), from, to, connected);
    }

    /** The outer loop of ExpectPeer. */
    method ExpectRows(list: seq<Pod>, from: Peer, to: Peer, connected: bool)
      requires Splittable(Keys(list))
      requires forall p, q :: p in list && q in list && from.Matches(p.PodString()) && to.Matches(q.PodString()) ==>
                                p.PodString() in expected.values
      modifies expected`values
      ensures expected.values == ApplyRule(old(expected.values), Rule(from, to, connected), Keys(list))
    {
      ghost var before, names := expected.values, Keys(list);
      ghost var cols := Selected(to, names);
      FillNothing(before, Selected(from, []), cols, connected);
      for i := 0 to |list|
        invariant Splittable(names[..i])
        invariant expected.values == Fill(before, Selected(from, names[..i]), cols, connected)
      {
        SelectOneMore(from, names, i);
        if from.Matches(list[i].PodString()) {
          NextRow(before, Selected(from, names[..i]), names[i], cols, connected);
          ExpectRow(list, list[i].PodString(), to, connected);
        }
      }
      assert names[..|list|] == names;
    }

    /** The inner loop of ExpectPeer. */
    method ExpectRow(list: seq<Pod>, fromPod: string, to: Peer, connected: bool)
      requires Splittable(Keys(list))
      requires forall q :: q in list && to.Matches(q.PodString()) ==> fromPod in expected.values
      modifies expected`values
      ensures expected.values == Fill(old(expected.values), {fromPod}, Selected(to, Keys(list)), connected)
    {
      ghost var before, names, cols: set<string> := expected.values, Keys(list), {};
      FillNothing(before, {fromPod}, cols, connected);
      for j := 0 to |list|
        invariant Splittable(names[..j]) && cols == Selected(to, names[..j])
        invariant expected.values == Fill(before, {fromPod}, cols, connected)
      {
        var toPod := list[j].PodString();
        SelectOneMore(to, names, j);
        if to.Matches(toPod) {
          NextColumn(before, fromPod, cols, toPod, connected);
          expected.Set(fromPod, toPod, connected);
          cols := cols + {toPod};
        }
      }
      assert names[..|list|] == names;
    }

    method Observe(fromPod: string, toPod: string, isConnected: bool, bandwidth: Option<real>)
      requires fromPod in observed.values && fromPod in observed.bandwidths
      modifies observed`values, observed`bandwidths
      ensures observed.values == Write(old(observed.values), fromPod, toPod, isConnected)
      ensures observed.bandwidths == Write(old(observed.bandwidths), fromPod, toPod, bandwidth)
    {
      observed.Set(fromPod, toPod, isConnected);
      observed.SetBandwidth(fromPod, toPod, bandwidth);
    }

    /**
     * The counts come out the same in whatever order Go visits the two maps. `warned` says whether the message about
     * incomplete observations is printed, which no observation can bring about: it depends on the expected table only.
     */
    method Summary(ignoreLoopback: bool, measureBandwidth: bool)
      returns (trueObs: nat, falseObs: nat, ignoredObs: nat, comparison: TruthTable, warned: bool)
      requires |expected.froms| <= |observed.froms| && |expected.tos| <= |observed.tos|
      ensures var s := Score(expected.values, observed.values, observed.bandwidths, ignoreLoopback, measureBandwidth);
              trueObs == Count(s, Right) && falseObs == Count(s, Wrong) && ignoredObs == Count(s, Ignored)
      ensures fresh(comparison) && comparison.values == Agreement(expected.values, observed.values)
      ensures warned <==> !Complete(expected.values, expected.froms, expected.tos)
    {
      falseObs, trueObs, ignoredObs := 0, 0, 0;
      comparison := expected.Compare(observed);
      warned := IsIncomplete(comparison);
      ghost var s := Score(expected.values, observed.values, observed.bandwidths, ignoreLoopback, measureBandwidth);
      ghost var seen: set<Pair> := {};
      var agreement := comparison.values;
      var fromsLeft := agreement.Keys;
      while fromsLeft != {}
        invariant fromsLeft <= s.expected.Keys
        invariant comparison.values == agreement
        invariant seen == Outside(s.expected, fromsLeft)
        invariant trueObs == |OfKind(s, Right, seen)| && falseObs == |OfKind(s, Wrong, seen)|
        invariant ignoredObs == |OfKind(s, Ignored, seen)|
      {
        var from :| from in fromsLeft;
        var right, wrong, ignored := SummaryRow(from, agreement[from], ignoreLoopback, measureBandwidth);
        ghost var row := Product({from}, s.expected[from].Keys);
        OutsideNext(s.expected, fromsLeft, from);
        CountUnion(s, seen, row);
        seen := seen + row;
        trueObs, falseObs, ignoredObs := trueObs + right, falseObs + wrong, ignoredObs + ignored;
        fromsLeft := fromsLeft - {from};
      }
      assert seen == Cells(s.expected);
    }

    /** The test of Summary, made on the comparison. */
    method IsIncomplete(comparison: TruthTable) returns (incomplete: bool)
      requires comparison.values == Agreement(expected.values, observed.values)
      requires comparison.froms == expected.froms && comparison.tos == expected.tos
      ensures incomplete <==> !Complete(expected.values, expected.froms, expected.tos)
    {
      AgreementComplete(expected.values, observed.values, expected.froms, expected.tos);
      var complete := comparison.IsComplete();
      incomplete := !complete;
    }

    /** The inner loop of Summary, over one row of the comparison. */
    method SummaryRow(from: string, row: map<string, bool>, ignoreLoopback: bool, measureBandwidth: bool)
      returns (trueObs: nat, falseObs: nat, ignoredObs: nat)
      requires from in expected.values && row == Agreement(expected.values, observed.values)[from]
      ensures var s := Score(expected.values, observed.values, observed.bandwidths, ignoreLoopback, measureBandwidth);
              var cells := Product({from}, expected.values[from].Keys);
              && trueObs == |OfKind(s, Right, cells)| && falseObs == |OfKind(s, Wrong, cells)|
              && ignoredObs == |OfKind(s, Ignored, cells)|
    {
      falseObs, trueObs, ignoredObs := 0, 0, 0;
      ghost var s := Score(expected.values, observed.values, observed.bandwidths, ignoreLoopback, measureBandwidth);
      ghost var seen: set<Pair> := {};
      var tosLeft := row.Keys;
      while tosLeft != {}
        invariant tosLeft <= row.Keys
        invariant seen == Product({from}, row.Keys - tosLeft)
        invariant trueObs == |OfKind(s, Right, seen)| && falseObs == |OfKind(s, Wrong, seen)|
        invariant ignoredObs == |OfKind(s, Ignored, seen)|
      {
        var to :| to in tosLeft;
        CountNext(s, seen, from, to);
        seen := seen + {(from, to)};
        tosLeft := tosLeft - {to};
        if ignoreLoopback && from == to {
          ignoredObs := ignoredObs + 1;
        } else if row[to] {
          if !measureBandwidth {
            trueObs := trueObs + 1;
          } else {
            var connected := Cell(observed.values, from, to);
            var bandwidth := Rate(observed.bandwidths, from, to);
            if connected && bandwidth.Some? && TooSlow(bandwidth.value) {
              falseObs := falseObs + 1;
            } else {
              trueObs := trueObs + 1;
            }
          }
        } else {
          falseObs := falseObs + 1;
        }
      }
      assert row.Keys == expected.values[from].Keys;
      assert seen == Product({from}, expected.values[from].Keys);
    }
  }

  lemma CountUnion(s: Score, a: set<Pair>, b: set<Pair>)
    requires a !! b
    ensures forall kind :: |OfKind(s, kind, a + b)| == |OfKind(s, kind, a)| + |OfKind(s, kind, b)|
  {
    forall kind
      ensures |OfKind(s, kind, a + b)| == |OfKind(s, kind, a)| + |OfKind(s, kind, b)|
    {
      assert OfKind(s, kind, a + b) == OfKind(s, kind, a) + OfKind(s, kind, b);
      assert OfKind(s, kind, a) !! OfKind(s, kind, b);
    }
  }

  lemma CountNext(s: Score, seen: set<Pair>, from: string, to: string)
    requires (from, to) !in seen
    ensures var kind, more := KindOf(s, (from, to)), seen + {(from, to)};
            && |OfKind(s, Right, more)| == |OfKind(s, Right, seen)| + (if kind == Right then 1 else 0)
            && |OfKind(s, Wrong, more)| == |OfKind(s, Wrong, seen)| + (if kind == Wrong then 1 else 0)
            && |OfKind(s, Ignored, more)| == |OfKind(s, Ignored, seen)| + (if kind == Ignored then 1 else 0)
  {
    CountOneMore(s, seen, (from, to), Right);
    CountOneMore(s, seen, (from, to), Wrong);
    CountOneMore(s, seen, (from, to), Ignored);
  }
}
