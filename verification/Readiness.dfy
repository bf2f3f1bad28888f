// Waiting until every server answers every pod (pkg/matrix/manager.go).
module Readiness {
  import opened Text
  import opened Entities
  import opened TruthTables
  import opened Reachabilities
  import opened ProbeProtocol
  import opened ModelSpec
  import opened Slices
  import opened Namespaces
  import opened Models
  import opened Probes
  import opened Verdicts

  const MAX_TRIES := 10

  /** One server per port and protocol. */
  datatype Case = Case(port: int, protocol: string)

  function CaseOf(testCase: TestCase): Case {
    Case(testCase.toPort, testCase.protocol)
  }

  function Describe(c: Case): string {
    "81->" + FormatInt(c.port) + "," + c.protocol
  }

  lemma DescribePieces(c: Case)
    ensures |Describe(c)| >= 4 && Describe(c)[4..] == FormatInt(c.port) + [','] + c.protocol
  {
  }

  /** No two cases share a name, so none overwrites another. */
  lemma DescribeInjective(a: Case, b: Case)
    requires Describe(a) == Describe(b)
    ensures a == b
  {
    DescribePieces(a);
    DescribePieces(b);
    FirstPiece(FormatInt(a.port), a.protocol, FormatInt(b.port), b.protocol, ',');
    FormatIntInjective(a.port, b.port);
  }

  ghost function RowCases(port: int, protocols: seq<string>): set<Case> {
    if protocols == [] then {}
    else RowCases(port, protocols[..|protocols| - 1]) + {Case(port, protocols[|protocols| - 1])}
  }

  ghost function AllCases(ports: seq<int>, protocols: seq<string>): set<Case> {
    if ports == [] then {}
    else AllCases(ports[..|ports| - 1], protocols) + RowCases(ports[|ports| - 1], protocols)
  }

  lemma {:induction false} InRow(port: int, protocols: seq<string>, c: Case)
    ensures c in RowCases(port, protocols) <==> c.port == port && c.protocol in protocols
  {
    if protocols != [] {
      var front, last := protocols[..|protocols| - 1], protocols[|protocols| - 1];
      assert protocols == front + [last];
      InRow(port, front, c);
    }
  }

  /** The cases are the pairs of a port and a protocol. */
  lemma {:induction false} InAllCases(ports: seq<int>, protocols: seq<string>, c: Case)
    ensures c in AllCases(ports, protocols) <==> c.port in ports && c.protocol in protocols
  {
    if ports != [] {
      var front, last := ports[..|ports| - 1], ports[|ports| - 1];
      assert ports == front + [last];
      InAllCases(front, protocols, c);
      InRow(last, protocols, c);
    }
  }

  ghost function Names(cases: set<Case>): set<string> {
    set c | c in cases :: Describe(c)
  }

  lemma {:induction false} NamesSize(cases: set<Case>)
    ensures |Names(cases)| == |cases|
  {
    if cases != {} {
      var c :| c in cases;
      NamesSize(cases - {c});
      if Describe(c) in Names(cases - {c}) {
        var d :| d in cases - {c} && Describe(d) == Describe(c);
        DescribeInjective(c, d);
      }
      assert Names(cases) == Names(cases - {c}) + {Describe(c)};
    } else {
      assert Names(cases) == {};
    }
  }

  /** The pods while they are waited for, and how the cluster answers each try of each case. */
  datatype World = World(views: seq<PodView>, names: seq<string>, nets: Nets)

  type Nets = (Case, nat) -> Network

  function CaseSetup(c: Case): Setup {
    Setup(c.port, c.protocol, POD_IP, false, false)
  }

  /** A try passes when every pod, loopback included, connects to every pod. */
  ghost predicate Passes(w: World, c: Case, attempt: nat) {
    forall from: nat, to: nat :: from < |w.views| && to < |w.views| ==>
      Respond(w.views, CaseSetup(c), w.nets(c, attempt), Job(from, to)).connected
  }

  // Whether a try of a case passes.
  type Outcome = (Case, nat) -> bool

  ghost function Outcomes(w: World): Outcome {
    (c: Case, attempt: nat) => Passes(w, c, attempt)
  }

  ghost predicate FailsEveryTry(w: World, c: Case) {
    forall attempt: nat :: attempt < MAX_TRIES ==> !Passes(w, c, attempt)
  }

  /**
   * A try passes when the cluster connects every probe of every unskipped pod, at its own address and the case's port.
   */
  lemma PassesExactly(w: World, c: Case, attempt: nat)
    ensures Passes(w, c, attempt) <==>
            forall from: nat, to: nat :: from < |w.views| && to < |w.views| && !w.views[to].skipProbe ==>
              w.nets(c, attempt)(Job(from, to),
                                 Request(Connect, w.views[from].namespace, w.views[from].name, w.views[to].podIP,
                                         c.protocol, if c.port == 0 then w.views[to].toPort else c.port)).connected
  {
    forall from: nat, to: nat | from < |w.views| && to < |w.views|
      ensures Respond(w.views, CaseSetup(c), w.nets(c, attempt), Job(from, to)).connected <==>
              w.views[to].skipProbe
              || w.nets(c, attempt)(Job(from, to),
                                    Request(Connect, w.views[from].namespace, w.views[from].name,
                                            w.views[to].podIP, c.protocol,
                                            if c.port == 0 then w.views[to].toPort else c.port)).connected
    {
    }
  }

  lemma NoFailures(w: World, c: Case, attempt: nat)
    requires |w.views| == |w.names|
    ensures Failures(NewGrid(w.names, w.names, Some(true)), w.views, w.names, CaseSetup(c), w.nets(c, attempt), false)
            == 0
            <==> Outcomes(w)(c, attempt)
  {
    var g, answer := NewGrid(w.names, w.names, Some(true)), AnswerTo(w.views, CaseSetup(c), w.nets(c, attempt));
    var failing := FailingPairs(g, w.names, answer, false, false);
    forall from: nat, to: nat | from < |w.views| && to < |w.views|
      ensures Job(from, to) in failing <==> !Respond(w.views, CaseSetup(c), w.nets(c, attempt), Job(from, to)).connected
    {
      assert Lookup(g, w.names[from], w.names[to]) == Some(true);
    }
    if failing != {} {
      var job :| job in failing;
      assert Job(job.from, job.to) in failing;
    }
  }

  /** What has to hold of the model and its pods for a try. */
  ghost predicate Probeable(model: Model, pods: seq<Pod>, w: World)
    reads model, model.namespaces, model.Arrays(), pods
  {
    && model.Valid() && FillCache(model.content).cache == Some(pods) && Snapshot(pods, w.views, w.names)
      && Distinct(w.names)
    && forall p, q :: p in pods && q in pods ==> q.skipProbe || |p.containers| > 0
  }

  ghost predicate Labelled(cases: map<string, TestCase>)
    reads cases.Values
  {
    forall key :: key in cases ==> key == Describe(CaseOf(cases[key])) && cases[key].serviceType == POD_IP
  }

  ghost function RowNames(port: int, protocols: seq<string>): set<string> {
    if protocols == [] then {}
    else RowNames(port, protocols[..|protocols| - 1]) + {Describe(Case(port, protocols[|protocols| - 1]))}
  }

  ghost function AllNames(ports: seq<int>, protocols: seq<string>): set<string> {
    if ports == [] then {}
    else AllNames(ports[..|ports| - 1], protocols) + RowNames(ports[|ports| - 1], protocols)
  }

  lemma NamesOneMore(cases: set<Case>, c: Case)
    ensures Names(cases + {c}) == Names(cases) + {Describe(c)}
  {
  }

  lemma NamesTogether(a: set<Case>, b: set<Case>)
    ensures Names(a + b) == Names(a) + Names(b)
  {
  }

  lemma {:induction false} RowNamesAre(port: int, protocols: seq<string>)
    ensures RowNames(port, protocols) == Names(RowCases(port, protocols))
  {
    if protocols != [] {
      var front, last := protocols[..|protocols| - 1], protocols[|protocols| - 1];
      RowNamesAre(port, front);
      NamesOneMore(RowCases(port, front), Case(port, last));
    } else {
      assert Names({}) == {};
    }
  }

  lemma {:induction false} AllNamesAre(ports: seq<int>, protocols: seq<string>)
    ensures AllNames(ports, protocols) == Names(AllCases(ports, protocols))
  {
    if ports != [] {
      var front, last := ports[..|ports| - 1], ports[|ports| - 1];
      AllNamesAre(front, protocols);
      RowNamesAre(last, protocols);
      NamesTogether(AllCases(front, protocols), RowCases(last, protocols));
    } else {
      assert Names({}) == {};
    }
  }

  lemma RowNamesNext(port: int, protocols: seq<string>, j: nat)
    requires j < |protocols|
    ensures RowNames(port, protocols[..j + 1])
            == RowNames(port, protocols[..j]) + {Describe(Case(port, protocols[j]))}
  {
    assert protocols[..j + 1][..j] == protocols[..j];
  }

  lemma Regrouped<T>(a: set<T>, b: set<T>, c: set<T>)
    ensures a + b + c == a + (b + c)
  {
  }

  method AddCase(some: map<string, TestCase>, c: Case) returns (cases: map<string, TestCase>)
    requires Labelled(some)
    ensures Labelled(cases) && cases.Keys == some.Keys + {Describe(c)}
    ensures forall key :: key in cases ==> fresh(cases[key]) || (key in some && cases[key] == some[key])
  {
    var testCase := new TestCase(c.port, c.protocol, POD_IP, null);
    cases := some[Describe(c) := testCase];
  }

  /** The inner loop: the cases of one port. */
  method AddCases(some: map<string, TestCase>, port: int, protocols: seq<string>)
    returns (cases: map<string, TestCase>)
    requires Labelled(some)
    ensures Labelled(cases) && cases.Keys == some.Keys + RowNames(port, protocols)
    ensures forall key :: key in cases ==> fresh(cases[key]) || (key in some && cases[key] == some[key])
  {
    cases := some;
    ghost var row: set<string> := {};
    for j := 0 to |protocols|
      invariant row == RowNames(port, protocols[..j])
      invariant Labelled(cases) && cases.Keys == some.Keys + row
      invariant forall key :: key in cases ==> fresh(cases[key]) || (key in some && cases[key] == some[key])
    {
      RowNamesNext(port, protocols, j);
      Regrouped(some.Keys, row, {Describe(Case(port, protocols[j]))});
      row := row + {Describe(Case(port, protocols[j]))};
      cases := AddCase(cases, Case(port, protocols[j]));
    }
    assert protocols[..|protocols|] == protocols;
  }

  method BuildCases(ports: seq<int>, protocols: seq<string>) returns (cases: map<string, TestCase>)
    ensures cases.Keys == AllNames(ports, protocols)
    ensures Labelled(cases) && forall key :: key in cases ==> fresh(cases[key])
    ensures forall key :: key in cases ==>
              key == "81->" + FormatInt(cases[key].toPort) + "," + cases[key].protocol
              && cases[key].serviceType == "podip"
  {
    cases := map[];
    for i := 0 to |ports|
      invariant cases.Keys == AllNames(ports[..i], protocols)
      invariant Labelled(cases) && forall key :: key in cases ==> fresh(cases[key])
    {
      assert ports[..i + 1][..i] == ports[..i];
      cases := AddCases(cases, ports[i], protocols);
    }
    assert ports[..|ports|] == ports;
  }

  /** Every pod is expected to reach every pod. */
  method ExpectAll(all: Slice, ghost pods: seq<Pod>, ghost views: seq<PodView>, ghost names: seq<string>)
    returns (r: Reachability)
    requires all.Valid() && all.Contents() == pods && Snapshot(pods, views, names)
    ensures fresh(r.expected) && fresh(r.observed) && BuiltFor(r, names) && Snapshot(pods, views, names)
    ensures r.expected.values == NewGrid(names, names, Some(true))
  {
    assert Keys(pods) == names;
    r := Expect(all, true, []);
  }

  method NewTables(model: Model, testCase: TestCase, all: Slice, ghost pods: seq<Pod>, ghost w: World)
    requires all.Valid() && all.Contents() == pods && Probeable(model, pods, w)
    modifies testCase`reachability
    ensures Probeable(model, pods, w) && testCase.reachability != null && BuiltFor(testCase.reachability, w.names)
    ensures fresh(testCase.reachability.expected) && fresh(testCase.reachability.observed)
    ensures testCase.reachability.expected.values == NewGrid(w.names, w.names, Some(true))
  {
    testCase.reachability := ExpectAll(all, pods, w.views, w.names);
  }

  method Prepare(model: Model, testCase: TestCase, ghost w: World, ghost pods: seq<Pod>)
    requires Probeable(model, pods, w) && testCase.serviceType == POD_IP
    modifies model`pods, model`content, testCase`reachability
    ensures Probeable(model, pods, w) && testCase.reachability != null && BuiltFor(testCase.reachability, w.names)
    ensures fresh(testCase.reachability.expected) && fresh(testCase.reachability.observed)
    ensures testCase.reachability.expected.values == NewGrid(w.names, w.names, Some(true))
    ensures SetupOf(testCase, false, false) == CaseSetup(CaseOf(testCase))
  {
    var all := FillModel(model, pods, w.views, w.names);
    NewTables(model, testCase, all, pods, w);
  }

  /** New tables for the case, one probe round and its summary. */
  method Try(nets: Nets, model: Model, testCase: TestCase, attempt: nat, ghost w: World, ghost pods: seq<Pod>)
    returns (wrong: nat)
    requires w.nets == nets && Probeable(model, pods, w) && testCase.serviceType == POD_IP
    modifies model`pods, model`content, testCase`reachability
    ensures Probeable(model, pods, w)
    ensures testCase.reachability != null
    ensures fresh(testCase.reachability.expected) && fresh(testCase.reachability.observed)
    ensures wrong == 0 <==> Outcomes(w)(CaseOf(testCase), attempt)
    ensures wrong == WrongCells(testCase.reachability, false, false)
  {
    NoFailures(w, CaseOf(testCase), attempt);
    Prepare(model, testCase, w, pods);
    ProbeRound(nets(CaseOf(testCase), attempt), model, testCase, false, false, false, pods, w.views, w.names);
    wrong := CountWrong(model, testCase, false, false, pods, w.views, w.names);
  }

  /**
   * Where a case stands after a number of tries: it is probed in every try up to and including the first that passes
   * and in none after that.
   */
  ghost predicate Tracked(passes: Outcome, c: Case, rounds: nat, pending: bool, tries: nat) {
    && rounds <= tries && (pending ==> rounds == tries)
    && (forall t: nat :: t < rounds && (pending || t < rounds - 1) ==> !passes(c, t))
    && (!pending ==> rounds > 0 && passes(c, rounds - 1))
  }

  ghost predicate Standing(passes: Outcome, cases: map<string, TestCase>, rounds: map<string, nat>,
                           notReady: set<string>, tries: nat)
  {
    && notReady <= cases.Keys == rounds.Keys
    && forall key :: key in cases ==> Tracked(passes, CaseOf(cases[key]), rounds[key], key in notReady, tries)
  }

  /** The tables of a case that is ready are those of the round it passed. */
  ghost predicate Stored(cases: map<string, TestCase>, notReady: set<string>)
    reads cases.Values
    reads set t | t in cases.Values && t.reachability != null :: t.reachability.expected
    reads set t | t in cases.Values && t.reachability != null :: t.reachability.observed
  {
    forall key :: key in cases && key !in notReady ==>
                    cases[key].reachability != null && WrongCells(cases[key].reachability, false, false) == 0
  }

  lemma TriedOnceMore(passes: Outcome, c: Case, attempt: nat)
    requires Tracked(passes, c, attempt, true, attempt)
    ensures Tracked(passes, c, attempt + 1, !passes(c, attempt), attempt + 1)
  {
  }

  /** In the middle of a try of all cases: those left are as before, the others have had it. */
  ghost predicate Sweeping(passes: Outcome, cases: map<string, TestCase>, rounds: map<string, nat>,
                           more: map<string, nat>,
                           notReady: set<string>, still: set<string>, left: set<string>, attempt: nat)
  {
    && left <= cases.Keys && still <= notReady && more.Keys == cases.Keys
    && Standing(passes, cases, rounds, notReady, attempt)
    && (forall key :: key in left ==> more[key] == rounds[key] && (key in still <==> key in notReady))
    && (forall key :: key in cases && key !in left ==>
        Tracked(passes, CaseOf(cases[key]), more[key], key in still, attempt + 1))
  }

  lemma SweepSkips(passes: Outcome, cases: map<string, TestCase>, rounds: map<string, nat>, more: map<string, nat>,
                   notReady: set<string>, still: set<string>, left: set<string>, attempt: nat, key: string)
    requires Sweeping(passes, cases, rounds, more, notReady, still, left, attempt) && key in left && key !in still
    ensures Sweeping(passes, cases, rounds, more, notReady, still, left - {key}, attempt)
  {
    assert Tracked(passes, CaseOf(cases[key]), rounds[key], key in notReady, attempt);
  }

  lemma SweepTries(passes: Outcome, cases: map<string, TestCase>, rounds: map<string, nat>, more: map<string, nat>,
                   notReady: set<string>, still: set<string>, left: set<string>, attempt: nat, key: string)
    requires Sweeping(passes, cases, rounds, more, notReady, still, left, attempt) && key in left && key in still
    ensures var after := if passes(CaseOf(cases[key]), attempt) then still - {key} else still;
            Sweeping(passes, cases, rounds, more[key := attempt + 1], notReady, after, left - {key}, attempt)
  {
    assert Tracked(passes, CaseOf(cases[key]), rounds[key], key in notReady, attempt);
    var after := if passes(CaseOf(cases[key]), attempt) then still - {key} else still;
    forall k | k in cases && k !in left - {key}
      ensures Tracked(passes, CaseOf(cases[k]), more[key := attempt + 1][k], k in after, attempt + 1)
    {
      if k == key {
        TriedOnceMore(passes, CaseOf(cases[key]), attempt);
      } else {
        assert Tracked(passes, CaseOf(cases[k]), more[k], k in still, attempt + 1);
      }
    }
  }

  /** A try of one case leaves the tables of the others alone. */
  method TryApart(nets: Nets, model: Model, cases: map<string, TestCase>, key: string, testCase: TestCase, attempt: nat,
                  ghost still: set<string>, ghost w: World, ghost pods: seq<Pod>)
    returns (wrong: nat)
    requires w.nets == nets && Probeable(model, pods, w) && Labelled(cases) && Stored(cases, still) && key in still
    requires key in cases && cases[key] == testCase
    modifies model`pods, model`content, testCase`reachability
    ensures Probeable(model, pods, w) && Labelled(cases) && Stored(cases, still)
    ensures wrong == 0 <==> Outcomes(w)(CaseOf(testCase), attempt)
    ensures testCase.reachability != null && wrong == WrongCells(testCase.reachability, false, false)
    ensures forall k :: k in cases && k != key ==> cases[k].reachability == old(cases[k].reachability)
  {
    wrong := Try(nets, model, testCase, attempt, w, pods);
  }

  method TryOne(nets: Nets, model: Model, cases: map<string, TestCase>, key: string, testCase: TestCase, attempt: nat,
                still: set<string>, ghost w: World, ghost pods: seq<Pod>)
    returns (after: set<string>)
    requires w.nets == nets && Probeable(model, pods, w) && Labelled(cases) && Stored(cases, still) && key in still
    requires key in cases && cases[key] == testCase
    modifies model`pods, model`content, testCase`reachability
    ensures Probeable(model, pods, w) && Labelled(cases) && Stored(cases, after)
    ensures after == if Outcomes(w)(CaseOf(cases[key]), attempt) then still - {key} else still
    ensures forall k :: k in cases && k != key ==> cases[k].reachability == old(cases[k].reachability)
  {
    after := still;
    var wrong := TryApart(nets, model, cases, key, testCase, attempt, still, w, pods);
    if wrong == 0 {
      after := still - {key};
    }
  }

  /** One try of every case that is not ready yet, in whatever order Go visits the map. */
  method Sweep(nets: Nets, model: Model, cases: map<string, TestCase>, notReady: set<string>, attempt: nat,
               ghost w: World, ghost pods: seq<Pod>, ghost rounds: map<string, nat>)
    returns (still: set<string>, ghost more: map<string, nat>)
    requires w.nets == nets && Probeable(model, pods, w) && Labelled(cases) && Stored(cases, notReady)
    requires Standing(Outcomes(w), cases, rounds, notReady, attempt)
    modifies model`pods, model`content, cases.Values`reachability
    ensures Probeable(model, pods, w) && Labelled(cases) && Stored(cases, still)
    ensures still <= notReady && Standing(Outcomes(w), cases, more, still, attempt + 1)
    ensures forall key :: key in cases && key !in notReady ==> cases[key].reachability == old(cases[key].reachability)
  {
    still, more := notReady, rounds;
    var left := cases.Keys;
    while left != {}
      invariant Sweeping(Outcomes(w), cases, rounds, more, notReady, still, left, attempt)
      invariant Probeable(model, pods, w) && Labelled(cases) && Stored(cases, still)
      invariant forall key :: key in cases && key !in notReady ==>
                cases[key].reachability == old(cases[key].reachability)
    {
      var key :| key in left;
      if key in still {
        SweepTries(Outcomes(w), cases, rounds, more, notReady, still, left, attempt, key);
        still := TryOne(nets, model, cases, key, cases[key], attempt, still, w, pods);
        more := more[key := attempt + 1];
      } else {
        SweepSkips(Outcomes(w), cases, rounds, more, notReady, still, left, attempt, key);
      }
      left := left - {key};
    }
  }

  /** How often a case was probed: up to its first passing try, else in every try. */
  ghost predicate History(w: World, c: Case, rounds: nat) {
    && 1 <= rounds <= MAX_TRIES
    && (forall attempt: nat :: attempt < rounds - 1 ==> !Passes(w, c, attempt))
    && (if FailsEveryTry(w, c) then rounds == MAX_TRIES else Passes(w, c, rounds - 1))
  }

  lemma HistoryOf(w: World, c: Case, rounds: nat, pending: bool, tries: nat)
    requires Tracked(Outcomes(w), c, rounds, pending, tries) && 1 <= tries <= MAX_TRIES
             && (pending ==> tries == MAX_TRIES)
    ensures History(w, c, rounds) && (pending <==> FailsEveryTry(w, c))
  {
    forall attempt: nat
      ensures Outcomes(w)(c, attempt) <==> Passes(w, c, attempt)
    {
    }
  }

  lemma Conclusion(w: World, cases: map<string, TestCase>, rounds: map<string, nat>, notReady: set<string>, tries: nat,
                   all: set<Case>)
    requires Standing(Outcomes(w), cases, rounds, notReady, tries) && Labelled(cases) && cases.Keys == Names(all)
    requires 1 <= tries <= MAX_TRIES && (notReady != {} ==> tries == MAX_TRIES)
    ensures notReady == Names(Failing(w, all)) && |notReady| == |Failing(w, all)|
    ensures forall c :: c in all ==> Describe(c) in rounds && History(w, c, rounds[Describe(c)])
  {
    var failing := Failing(w, all);
    forall c | c in all
      ensures Describe(c) in rounds && History(w, c, rounds[Describe(c)])
      ensures Describe(c) in notReady <==> c in failing
    {
      var key := Describe(c);
      assert key in Names(all);
      DescribeInjective(CaseOf(cases[key]), c);
      HistoryOf(w, c, rounds[key], key in notReady, tries);
    }
    forall key
      ensures key in notReady <==> key in Names(failing)
    {
      if key in notReady {
        var c :| c in all && Describe(c) == key;
        assert c in failing;
      }
    }
    NamesSize(failing);
  }

  ghost function Failing(w: World, all: set<Case>): set<Case> {
    set c | c in all && FailsEveryTry(w, c)
  }

  /** A case fails if it passes none of the attempts 0 to 9. */
  lemma TenTries(w: World, all: set<Case>)
    ensures Failing(w, all) == set c | c in all && forall attempt: nat :: attempt < 10 ==> !Passes(w, c, attempt)
    ensures Failing(w, all) == {} <==>
            forall c :: c in all ==> exists attempt: nat :: attempt < 10 && Passes(w, c, attempt)
  {
    forall c
      ensures FailsEveryTry(w, c) <==> forall attempt: nat :: attempt < 10 ==> !Passes(w, c, attempt)
    {
    }
    if Failing(w, all) == {} {
      forall c | c in all
        ensures exists attempt: nat :: attempt < 10 && Passes(w, c, attempt)
      {
        assert c !in Failing(w, all);
      }
    }
  }

  /** A case is probed in ten tries at most, and in fewer only if it passed the last of them. */
  lemma TenRounds(w: World, c: Case, rounds: nat)
    ensures History(w, c, rounds) <==>
            && 1 <= rounds <= 10 && (forall attempt: nat :: attempt < rounds - 1 ==> !Passes(w, c, attempt))
            && (rounds == 10 || Passes(w, c, rounds - 1))
  {
    if !FailsEveryTry(w, c) && rounds == 10 && forall attempt: nat :: attempt < rounds - 1 ==> !Passes(w, c, attempt) {
      var attempt: nat :| attempt < 10 && Passes(w, c, attempt);
      assert attempt == 9;
    }
  }

  /** A cluster whose servers answer from one attempt on. */
  function AnswersFrom(first: nat): Nets {
    (_, attempt: nat) => ((_, _) => Reply(attempt >= first, "", None))
  }

  lemma AnswersInTime(views: seq<PodView>, names: seq<string>, first: nat, c: Case, attempt: nat, i: nat)
    requires i < |views| && !views[i].skipProbe
    ensures Passes(World(views, names, AnswersFrom(first)), c, attempt) <==> attempt >= first
  {
    var w := World(views, names, AnswersFrom(first));
    forall job: Job | IsJob(job, |views|)
      ensures Respond(views, CaseSetup(c), w.nets(c, attempt), job).connected
              <==> views[job.to].skipProbe || attempt >= first
    {
    }
    assert IsJob(Job(i, i), |views|);
    if attempt < first {
      assert !Respond(w.views, CaseSetup(c), w.nets(c, attempt), Job(i, i)).connected;
    }
  }

  /** Servers that first answer at the tenth try are ready, and servers that would first answer at an eleventh count. */
  lemma LastTry(views: seq<PodView>, names: seq<string>, all: set<Case>, i: nat)
    requires i < |views| && !views[i].skipProbe
    ensures Failing(World(views, names, AnswersFrom(9)), all) == {}
    ensures Failing(World(views, names, AnswersFrom(10)), all) == all
  {
    var ready, late := World(views, names, AnswersFrom(9)), World(views, names, AnswersFrom(10));
    forall c
      ensures !FailsEveryTry(ready, c)
    {
      AnswersInTime(views, names, 9, c, 9, i);
    }
    forall c, attempt: nat | attempt < 10
      ensures !Passes(late, c, attempt)
    {
      AnswersInTime(views, names, 10, c, attempt, i);
    }
    TenTries(late, all);
  }

  /**
   * What waiting for some cases comes to. The error counts those that failed every try. Each was probed up to the try
   * that passed and no further, and those that passed keep the tables of that try, without a wrong cell.
   */
  ghost predicate Waited(w: World, all: set<Case>, error: Option<nat>, rounds: map<string, nat>,
                          cases: map<string, TestCase>)
    reads cases.Values
    reads set t | t in cases.Values && t.reachability != null :: t.reachability.expected
    reads set t | t in cases.Values && t.reachability != null :: t.reachability.observed
  {
    && error == (if Failing(w, all) == {} then None else Some(|Failing(w, all)|))
    && (forall c :: c in all ==> Describe(c) in rounds && History(w, c, rounds[Describe(c)]))
    && cases.Keys == Names(all) && Stored(cases, Names(Failing(w, all)))
  }

  /** The ten tries, ended early once every case is ready. */
  method TryCases(nets: Nets, model: Model, cases: map<string, TestCase>, ghost w: World, ghost pods: seq<Pod>)
    returns (notReady: set<string>, ghost rounds: map<string, nat>, ghost tries: nat)
    requires w.nets == nets && Probeable(model, pods, w) && Labelled(cases)
    modifies model`pods, model`content, cases.Values`reachability
    ensures Probeable(model, pods, w) && Labelled(cases) && Stored(cases, notReady)
    ensures Standing(Outcomes(w), cases, rounds, notReady, tries)
    ensures 1 <= tries <= MAX_TRIES && (notReady != {} ==> tries == MAX_TRIES)
  {
    notReady, rounds, tries := cases.Keys, map key | key in cases :: 0, MAX_TRIES;
    for i := 0 to MAX_TRIES
      invariant Probeable(model, pods, w) && Labelled(cases) && Stored(cases, notReady)
      invariant Standing(Outcomes(w), cases, rounds, notReady, i)
    {
      notReady, rounds := Sweep(nets, model, cases, notReady, i, w, pods, rounds);
      if notReady == {} {
        tries := i + 1;
        break;
      }
    }
  }

  /** What WaitForHTTPServers does with the ports and protocols it read. */
  method WaitForCases(nets: Nets, model: Model, ports: seq<int>, protocols: seq<string>, ghost w: World,
                      ghost pods: seq<Pod>)
    returns (error: Option<nat>, ghost rounds: map<string, nat>, ghost cases: map<string, TestCase>)
    requires w.nets == nets && Probeable(model, pods, w)
    modifies model`pods, model`content
    ensures Probeable(model, pods, w)
    ensures Waited(w, AllCases(ports, protocols), error, rounds, cases)
  {
    var testCases := BuildCases(ports, protocols);
    AllNamesAre(ports, protocols);
    var notReady;
    ghost var tries;
    notReady, rounds, tries := TryCases(nets, model, testCases, w, pods);
    Conclusion(w, testCases, rounds, notReady, tries, AllCases(ports, protocols));
    cases := testCases;
    error := if notReady == {} then None else Some(|notReady|);
  }

  /** Reading ports and protocols leaves the pods alone. */
  method ReadPorts(model: Model, ghost w: World, ghost pods: seq<Pod>) returns (ports: seq<int>, protocols: seq<string>)
    requires Probeable(model, pods, w) && (model.ports.Some? <==> model.protocols.Some?)
    modifies model`ports, model`protocols
    ensures Probeable(model, pods, w) && model.ports == Some(ports) && model.protocols == Some(protocols)
    ensures old(model.ports).Some? ==> model.ports == old(model.ports) && model.protocols == old(model.protocols)
    ensures old(model.ports).None? ==> Extracted(ports, protocols, ContainersOf(Flatten(old(model.content).namespaces)))
  {
    ports, protocols := model.AllPortsProtocol();
  }

  /** Reading the ports and protocols, and waiting for their servers. */
  method WaitForServersOf(nets: Nets, model: Model, ghost w: World, ghost pods: seq<Pod>)
    returns (error: Option<nat>, ghost rounds: map<string, nat>, ghost cases: map<string, TestCase>)
    requires w.nets == nets && Probeable(model, pods, w) && (model.ports.Some? <==> model.protocols.Some?)
    modifies model`pods, model`content, model`ports, model`protocols
    ensures Probeable(model, pods, w) && model.ports.Some? && model.protocols.Some?
    ensures old(model.ports).Some? ==> model.ports == old(model.ports) && model.protocols == old(model.protocols)
    ensures old(model.ports).None? ==>
              Extracted(model.ports.value, model.protocols.value, ContainersOf(Flatten(old(model.content).namespaces)))
    ensures Waited(w, AllCases(model.ports.value, model.protocols.value), error, rounds, cases)
  {
    var ports, protocols := ReadPorts(model, w, pods);
    error, rounds, cases := WaitForCases(nets, model, ports, protocols, w, pods);
  }

  lemma ErrorCounts(w: World, all: set<Case>, error: Option<nat>)
    requires error == if Failing(w, all) == {} then None else Some(|Failing(w, all)|)
    ensures error == None <==> forall c :: c in all ==> exists attempt: nat :: attempt < 10 && Passes(w, c, attempt)
    ensures var unready := set c | c in all && (forall attempt: nat :: attempt < 10 ==> !Passes(w, c, attempt)) :: c;
            error == if unready == {} then None else Some(|unready|)
  {
    TenTries(w, all);
    var unready := set c | c in all && (forall attempt: nat :: attempt < 10 ==> !Passes(w, c, attempt)) :: c;
    assert Failing(w, all) == unready;
  }

  /**
   * Waits until every server has answered every pod in one of ten tries. The error counts the servers that never did.
   * A server that did is not probed again, and its tables stay those of the try it passed.
   */
  method WaitForHTTPServers(nets: Nets, model: Model, ghost w: World, ghost pods: seq<Pod>)
    returns (error: Option<nat>, ghost rounds: map<string, nat>, ghost cases: map<string, TestCase>)
    requires w.nets == nets && Probeable(model, pods, w) && (model.ports.Some? <==> model.protocols.Some?)
    modifies model`pods, model`content, model`ports, model`protocols
    ensures Probeable(model, pods, w) && model.ports.Some? && model.protocols.Some?
    ensures old(model.ports).Some? ==> model.ports == old(model.ports) && model.protocols == old(model.protocols)
    ensures old(model.ports).None? ==>
              Extracted(model.ports.value, model.protocols.value, ContainersOf(Flatten(old(model.content).namespaces)))
    ensures Waited(w, AllCases(model.ports.value, model.protocols.value), error, rounds, cases)
    ensures var unready := set c | c in AllCases(model.ports.value, model.protocols.value)
                                   && (forall attempt: nat :: attempt < 10 ==> !Passes(w, c, attempt)) :: c;
            error == if unready == {} then None else Some(|unready|)
  {
    error, rounds, cases := WaitForServersOf(nets, model, w, pods);
    ErrorCounts(w, AllCases(model.ports.value, model.protocols.value), error);
  }
}
