// The two-try verdict on a test case (pkg/matrix/helper.go).
module Verdicts {
  import opened Text
  import opened Entities
  import opened TruthTables
  import opened Reachabilities
  import opened ProbeProtocol
  import opened Recording
  import opened ModelSpec
  import opened Slices
  import opened Models
  import opened Probes

  /** Tables built from the model's pods, as NewReachability builds them and rules and earlier rounds leave them. */
  ghost predicate BuiltFor(r: Reachability, names: seq<string>)
    reads r.expected, r.observed
  {
    && r.expected != r.observed
    && Square(r.expected.values, names) && Within(r.observed.values, names) && Within(r.observed.bandwidths, names)
    && |r.expected.froms| <= |r.observed.froms| && |r.expected.tos| <= |r.observed.tos|
  }

  ghost predicate FailsPair(expected: Grid<bool>, names: seq<string>, answer: Job -> Answer, ignoreLoopback: bool,
                            measure: bool, job: Job)
    requires IsJob(job, |names|)
  {
    !(ignoreLoopback && job.from == job.to)
    && Fails(Cell(expected, names[job.from], names[job.to]), answer(job).connected, answer(job).bandwidth, measure)
  }

  /**
   * The ordered pairs of pods whose expectation the round did not meet: the wrong connection or, when measuring, a
   * connection with a known bandwidth below the benchmark.
   */
  ghost function FailingPairs(expected: Grid<bool>, names: seq<string>, answer: Job -> Answer, ignoreLoopback: bool,
                              measure: bool): set<Job>
  {
    set from: nat, to: nat | from < |names| && to < |names|
                             && FailsPair(expected, names, answer, ignoreLoopback, measure, Job(from, to)) ::
                               Job(from, to)
  }

  ghost function KeyOf(names: seq<string>, job: Job): Pair
    requires IsJob(job, |names|)
  {
    (names[job.from], names[job.to])
  }

  lemma {:induction false} SameSize(names: seq<string>, jobs: set<Job>, cells: set<Pair>)
    requires Distinct(names) && forall job :: job in jobs ==> IsJob(job, |names|)
    requires cells == set job | job in jobs :: KeyOf(names, job)
    ensures |cells| == |jobs|
    decreases |jobs|
  {
    if jobs == {} {
      assert cells == {};
    } else {
      var job :| job in jobs;
      var rest := set other | other in jobs - {job} :: KeyOf(names, other);
      SameSize(names, jobs - {job}, rest);
      assert KeyOf(names, job) !in rest by {
        forall other | other in jobs - {job}
          ensures KeyOf(names, other) != KeyOf(names, job)
        {
          PositionOf(names, other.from);
          PositionOf(names, other.to);
          PositionOf(names, job.from);
          PositionOf(names, job.to);
        }
      }
      assert cells == rest + {KeyOf(names, job)};
    }
  }

  ghost function ScoreOf(expected: Grid<bool>, ledger: Ledger, order: seq<Job>, ignoreLoopback: bool,
                         measure: bool): Score
    requires Writable(ledger) && AreJobs(order, |ledger.names|)
  {
    Score(expected, Record(ledger.values, ledger.names, order, Connected(ledger.answer)),
          Record(ledger.rates, ledger.names, order, Bandwidth(ledger.answer)), ignoreLoopback, measure)
  }

  lemma RecordedCell<V>(g: Grid<V>, names: seq<string>, order: seq<Job>, answer: Job -> V, job: Job)
    requires HasRows(g, names) && AreJobs(order, |names|) && Distinct(names) && IsJob(job, |names|) && job in order
    ensures Lookup(Record(g, names, order, answer), names[job.from], names[job.to]) == Some(answer(job))
    ensures names[job.from] == names[job.to] <==> job.from == job.to
  {
    RecordLookup(g, names, order, answer, names[job.from], names[job.to]);
    PositionOf(names, job.from);
    PositionOf(names, job.to);
  }

  /** After a round, the cell of a pair is wrong exactly when the pair fails. */
  lemma CellVerdict(expected: Grid<bool>, ledger: Ledger, order: seq<Job>, ignoreLoopback: bool, measure: bool,
                    job: Job)
    requires Writable(ledger) && Within(ledger.values, ledger.names) && Within(ledger.rates, ledger.names)
    requires Distinct(ledger.names) && multiset(order) == multiset(AllJobs(|ledger.names|))
    requires IsJob(job, |ledger.names|)
    ensures AreJobs(order, |ledger.names|)
    ensures KindOf(ScoreOf(expected, ledger, order, ignoreLoopback, measure), KeyOf(ledger.names, job)) == Wrong
            <==> FailsPair(expected, ledger.names, ledger.answer, ignoreLoopback, measure, job)
  {
    PermutedJobs(order, |ledger.names|);
    RecordedCell(ledger.values, ledger.names, order, Connected(ledger.answer), job);
    RecordedCell(ledger.rates, ledger.names, order, Bandwidth(ledger.answer), job);
  }

  lemma CountMatches(score: Score, names: seq<string>, jobs: set<Job>)
    requires Distinct(names) && Square(score.expected, names)
    requires forall job :: job in jobs ==> IsJob(job, |names|)
    requires forall job :: IsJob(job, |names|) ==> (job in jobs <==> KindOf(score, KeyOf(names, job)) == Wrong)
    ensures Count(score, Wrong) == |jobs|
  {
    var cells := OfKind(score, Wrong, Cells(score.expected));
    var keys := set job | job in jobs :: KeyOf(names, job);
    forall p | p in keys
      ensures p in cells
    {
      assert Lookup(score.expected, p.0, p.1) != None;
    }
    forall p | p in cells
      ensures p in keys
    {
      assert Lookup(score.expected, p.0, p.1) != None;
      assert KeyOf(names, JobAt(names, p.0, p.1)) == p;
    }
    assert keys == cells;
    SameSize(names, jobs, keys);
  }

  lemma PairVerdicts(expected: Grid<bool>, ledger: Ledger, order: seq<Job>, ignoreLoopback: bool, measure: bool)
    requires Writable(ledger) && Within(ledger.values, ledger.names) && Within(ledger.rates, ledger.names)
    requires Distinct(ledger.names) && multiset(order) == multiset(AllJobs(|ledger.names|))
    ensures AreJobs(order, |ledger.names|)
    ensures forall job :: IsJob(job, |ledger.names|) ==>
              (job in FailingPairs(expected, ledger.names, ledger.answer, ignoreLoopback, measure) <==>
               KindOf(ScoreOf(expected, ledger, order, ignoreLoopback, measure), KeyOf(ledger.names, job)) == Wrong)
  {
    PermutedJobs(order, |ledger.names|);
    forall job | IsJob(job, |ledger.names|)
      ensures job in FailingPairs(expected, ledger.names, ledger.answer, ignoreLoopback, measure) <==>
              KindOf(ScoreOf(expected, ledger, order, ignoreLoopback, measure), KeyOf(ledger.names, job)) == Wrong
    {
      CellVerdict(expected, ledger, order, ignoreLoopback, measure, job);
      assert job == Job(job.from, job.to);
    }
  }

  /** What Summary counts as wrong after a round is the number of failing pairs. */
  lemma RoundVerdict(expected: Grid<bool>, ledger: Ledger, order: seq<Job>, ignoreLoopback: bool, measure: bool)
    requires Writable(ledger) && Within(ledger.values, ledger.names) && Within(ledger.rates, ledger.names)
    requires Distinct(ledger.names) && multiset(order) == multiset(AllJobs(|ledger.names|))
    requires Square(expected, ledger.names)
    ensures AreJobs(order, |ledger.names|)
    ensures Count(ScoreOf(expected, ledger, order, ignoreLoopback, measure), Wrong)
            == |FailingPairs(expected, ledger.names, ledger.answer, ignoreLoopback, measure)|
  {
    PermutedJobs(order, |ledger.names|);
    PairVerdicts(expected, ledger, order, ignoreLoopback, measure);
    CountMatches(ScoreOf(expected, ledger, order, ignoreLoopback, measure), ledger.names,
                 FailingPairs(expected, ledger.names, ledger.answer, ignoreLoopback, measure));
  }

  /** The number of pairs one round leaves wrong. */
  ghost function Failures(expected: Grid<bool>, views: seq<PodView>, names: seq<string>, setup: Setup, net: Network,
                          ignoreLoopback: bool): nat
  {
    |FailingPairs(expected, names, AnswerTo(views, setup, net), ignoreLoopback, setup.measureBandwidth)|
  }

  /** Whether some cluster answers a pair as expected: skipped pods always count as connected. */
  ghost predicate Attainable(expected: Grid<bool>, views: seq<PodView>, names: seq<string>, setup: Setup, job: Job)
    requires |views| == |names| && IsJob(job, |names|)
  {
    if Cell(expected, names[job.from], names[job.to]) then Connectable(views[job.to], setup)
       else !views[job.to].skipProbe
  }

  ghost predicate AllAttainable(expected: Grid<bool>, views: seq<PodView>, names: seq<string>, setup: Setup,
                                ignoreLoopback: bool)
    requires |views| == |names|
  {
    forall job :: IsJob(job, |names|) && !(ignoreLoopback && job.from == job.to) ==>
      Attainable(expected, views, names, setup, job)
  }

  /** The cluster that answers every pair as expected, from the pod it should come from. */
  ghost function Obliging(expected: Grid<bool>, views: seq<PodView>, names: seq<string>): Network
    requires |views| == |names|
  {
    (job: Job, _) =>
      if job.from < |names| && job.to < |names| && Cell(expected, names[job.from], names[job.to]) then
        Reply(true, views[job.to].name, Some(FAST))
      else Reply(false, "", None)
  }

  lemma NoneFailing(expected: Grid<bool>, views: seq<PodView>, names: seq<string>, setup: Setup, net: Network,
                    ignoreLoopback: bool)
    requires |views| == |names|
    ensures Failures(expected, views, names, setup, net, ignoreLoopback) == 0 <==>
            forall job :: IsJob(job, |names|) ==>
              !FailsPair(expected, names, AnswerTo(views, setup, net), ignoreLoopback, setup.measureBandwidth, job)
  {
    var failing := FailingPairs(expected, names, AnswerTo(views, setup, net), ignoreLoopback, setup.measureBandwidth);
    forall job | IsJob(job, |names|)
      ensures job in failing <==>
              FailsPair(expected, names, AnswerTo(views, setup, net), ignoreLoopback, setup.measureBandwidth, job)
    {
      assert job == Job(job.from, job.to);
    }
    if failing != {} {
      var job :| job in failing;
      assert IsJob(job, |names|);
    }
  }

  /**
   * A test can succeed, against some cluster, exactly when every counted pair is attainable; a plausible one will do. A
   * test that asks for bandwidth and for the target's endpoint can not if a named pod that is not skipped should be
   * reached.
   */
  lemma PassableExactly(expected: Grid<bool>, views: seq<PodView>, names: seq<string>, setup: Setup,
                        ignoreLoopback: bool)
    requires |views| == |names|
    ensures (exists net: Network :: Failures(expected, views, names, setup, net, ignoreLoopback) == 0)
            <==> AllAttainable(expected, views, names, setup, ignoreLoopback)
    ensures AllAttainable(expected, views, names, setup, ignoreLoopback) ==>
              exists net: Network ::
                Plausible(net) && Failures(expected, views, names, setup, net, ignoreLoopback) == 0
  {
    if AllAttainable(expected, views, names, setup, ignoreLoopback) {
      var net := Obliging(expected, views, names);
      NoneFailing(expected, views, names, setup, net, ignoreLoopback);
      assert Plausible(net) && Failures(expected, views, names, setup, net, ignoreLoopback) == 0;
    }
    if net: Network :| Failures(expected, views, names, setup, net, ignoreLoopback) == 0 {
      NoneFailing(expected, views, names, setup, net, ignoreLoopback);
      forall job | IsJob(job, |names|) && !(ignoreLoopback && job.from == job.to)
        ensures Attainable(expected, views, names, setup, job)
      {
        assert !FailsPair(expected, names, AnswerTo(views, setup, net), ignoreLoopback, setup.measureBandwidth, job);
        CanConnect(views, setup, job);
      }
    }
  }

  /**
   * Asking for both, every counted pair whose target has a name and is not skipped is wrong exactly if it should
   * connect, whatever the cluster does.
   */
  lemma MeasuredPair(expected: Grid<bool>, views: seq<PodView>, names: seq<string>, setup: Setup, net: Network,
                     ignoreLoopback: bool, job: Job)
    requires |views| == |names| && IsJob(job, |names|) && setup.reachTargetPod && setup.measureBandwidth
    requires views[job.to].name != "" && !views[job.to].skipProbe && !(ignoreLoopback && job.from == job.to)
    ensures FailsPair(expected, names, AnswerTo(views, setup, net), ignoreLoopback, true, job)
            <==> Cell(expected, names[job.from], names[job.to])
  {
    CanConnect(views, setup, job);
    assert !Respond(views, setup, net, job).connected;
  }

  /** So if all pods have names and none is skipped, exactly the pairs that should connect are wrong. */
  lemma MeasuringNeverReaches(expected: Grid<bool>, views: seq<PodView>, names: seq<string>, setup: Setup, net: Network,
                              ignoreLoopback: bool)
    requires |views| == |names| && setup.reachTargetPod && setup.measureBandwidth
    requires forall i :: 0 <= i < |views| ==> views[i].name != "" && !views[i].skipProbe
    ensures Failures(expected, views, names, setup, net, ignoreLoopback)
            == |set from: nat, to: nat | from < |names| && to < |names| && !(ignoreLoopback && from == to)
                                         && Cell(expected, names[from], names[to]) :: Job(from, to)|
  {
    var answer := AnswerTo(views, setup, net);
    forall from: nat, to: nat | from < |names| && to < |names| && !(ignoreLoopback && from == to)
      ensures FailsPair(expected, names, answer, ignoreLoopback, true, Job(from, to)) <==>
              Cell(expected, names[from], names[to])
    {
      MeasuredPair(expected, views, names, setup, net, ignoreLoopback, Job(from, to));
    }
    assert FailingPairs(expected, names, answer, ignoreLoopback, true)
           == set from: nat, to: nat | from < |names| && to < |names| && !(ignoreLoopback && from == to)
                                       && Cell(expected, names[from], names[to]) :: Job(from, to);
  }

  /** The cells a summary of these tables counts as wrong. */
  ghost function WrongCells(r: Reachability, ignoreLoopback: bool, measureBandwidth: bool): nat
    reads r.expected, r.observed
  {
    Count(Score(r.expected.values, r.observed.values, r.observed.bandwidths, ignoreLoopback, measureBandwidth), Wrong)
  }

  /** How many pairs a round of this test case gets wrong. */
  ghost function RoundFailures(testCase: TestCase, reachTargetPod: bool, measureBandwidth: bool, net: Network,
                               ignoreLoopback: bool, views: seq<PodView>, names: seq<string>): nat
    requires testCase.reachability != null
    reads testCase, testCase.reachability.expected
  {
    Failures(testCase.reachability.expected.values, views, names, SetupOf(testCase, reachTargetPod, measureBandwidth),
             net, ignoreLoopback)
  }

  /** Taking the summary changes nothing. */
  method CountWrong(model: Model, testCase: TestCase, ignoreLoopback: bool, measureBandwidth: bool,
                    ghost pods: seq<Pod>, ghost views: seq<PodView>, ghost names: seq<string>)
    returns (wrong: nat)
    requires Ready(model, testCase, pods, views, names) && BuiltFor(testCase.reachability, names)
    ensures Ready(model, testCase, pods, views, names)
    ensures wrong == WrongCells(testCase.reachability, ignoreLoopback, measureBandwidth)
  {
    var _, w, _, _, _ := testCase.reachability.Summary(ignoreLoopback, measureBandwidth);
    wrong := w;
  }

  /** After a round the cells a summary counts as wrong are the failing pairs. The tables stay fit for another round. */
  method ProbeRound(net: Network, model: Model, testCase: TestCase, reachTargetPod: bool, measureBandwidth: bool,
                    ghost ignoreLoopback: bool, ghost pods: seq<Pod>, ghost views: seq<PodView>,
                    ghost names: seq<string>)
    requires Ready(model, testCase, pods, views, names) && Distinct(names) && BuiltFor(testCase.reachability, names)
    modifies model`pods, model`content, testCase.reachability.observed`values, testCase.reachability.observed`bandwidths
    ensures Ready(model, testCase, pods, views, names) && BuiltFor(testCase.reachability, names)
    ensures model.content == FillCache(old(model.content))
    ensures SetupOf(testCase, reachTargetPod, measureBandwidth)
            == old(SetupOf(testCase, reachTargetPod, measureBandwidth))
    ensures testCase.reachability.expected.values == old(testCase.reachability.expected.values)
    ensures RoundFailures(testCase, reachTargetPod, measureBandwidth, net, ignoreLoopback, views, names)
            == WrongCells(testCase.reachability, ignoreLoopback, measureBandwidth)
  {
    var r := testCase.reachability;
    ghost var answer := AnswerTo(views, SetupOf(testCase, reachTargetPod, measureBandwidth), net);
    ghost var ledger := Ledger(r.observed.values, r.observed.bandwidths, names, answer);
    ghost var order := ProbePodToPodConnectivity(net, model, testCase, reachTargetPod, measureBandwidth, pods, views,
                                                 ledger);
    RoundVerdict(r.expected.values, ledger, order, ignoreLoopback, measureBandwidth);
    RoundLookup(ledger.values, names, order, Connected(answer));
    RoundLookup(ledger.rates, names, order, Bandwidth(answer));
  }

  method FirstTry(net: Network, model: Model, testCase: TestCase, reachTargetPod: bool, measureBandwidth: bool,
                  ignoreLoopback: bool, ghost pods: seq<Pod>, ghost views: seq<PodView>, ghost names: seq<string>)
    returns (wrong: nat)
    requires Ready(model, testCase, pods, views, names) && Distinct(names) && BuiltFor(testCase.reachability, names)
    modifies model`pods, model`content, testCase.reachability.observed`values, testCase.reachability.observed`bandwidths
    ensures Ready(model, testCase, pods, views, names) && BuiltFor(testCase.reachability, names)
    ensures SetupOf(testCase, reachTargetPod, measureBandwidth)
            == old(SetupOf(testCase, reachTargetPod, measureBandwidth))
    ensures testCase.reachability.expected.values == old(testCase.reachability.expected.values)
    ensures wrong == RoundFailures(testCase, reachTargetPod, measureBandwidth, net, ignoreLoopback, views, names)
            && wrong == WrongCells(testCase.reachability, ignoreLoopback, measureBandwidth)
  {
    ProbeRound(net, model, testCase, reachTargetPod, measureBandwidth, ignoreLoopback, pods, views, names);
    wrong := CountWrong(model, testCase, ignoreLoopback, measureBandwidth, pods, views, names);
  }

  /** The second try, in case the first one failed. */
  method Retry(net: Network, wrong: nat, model: Model, testCase: TestCase, reachTargetPod: bool, measureBandwidth: bool,
               ghost ignoreLoopback: bool, ghost pods: seq<Pod>, ghost views: seq<PodView>, ghost names: seq<string>)
    returns (rounds: nat)
    requires Ready(model, testCase, pods, views, names) && Distinct(names) && BuiltFor(testCase.reachability, names)
    modifies model`pods, model`content, testCase.reachability.observed`values, testCase.reachability.observed`bandwidths
    ensures Ready(model, testCase, pods, views, names) && BuiltFor(testCase.reachability, names)
    ensures SetupOf(testCase, reachTargetPod, measureBandwidth)
            == old(SetupOf(testCase, reachTargetPod, measureBandwidth))
    ensures testCase.reachability.expected.values == old(testCase.reachability.expected.values)
    ensures rounds == if wrong == 0 then 1 else 2
    ensures WrongCells(testCase.reachability, ignoreLoopback, measureBandwidth)
            == if wrong == 0 then old(WrongCells(testCase.reachability, ignoreLoopback, measureBandwidth))
               else RoundFailures(testCase, reachTargetPod, measureBandwidth, net, ignoreLoopback, views, names)
  {
    rounds := 1;
    if wrong != 0 {
      ProbeRound(net, model, testCase, reachTargetPod, measureBandwidth, ignoreLoopback, pods, views, names);
      rounds := 2;
    }
  }

  /** The second try and the summary that is taken in any case. */
  method SecondTry(net: Network, first: nat, model: Model, testCase: TestCase, reachTargetPod: bool,
                   measureBandwidth: bool, ignoreLoopback: bool,
                   ghost pods: seq<Pod>, ghost views: seq<PodView>, ghost names: seq<string>)
    returns (wrong: nat, rounds: nat)
    requires Ready(model, testCase, pods, views, names) && Distinct(names) && BuiltFor(testCase.reachability, names)
    requires first == WrongCells(testCase.reachability, ignoreLoopback, measureBandwidth)
    modifies model`pods, model`content, testCase.reachability.observed`values, testCase.reachability.observed`bandwidths
    ensures Ready(model, testCase, pods, views, names) && BuiltFor(testCase.reachability, names)
    ensures SetupOf(testCase, reachTargetPod, measureBandwidth)
            == old(SetupOf(testCase, reachTargetPod, measureBandwidth))
    ensures testCase.reachability.expected.values == old(testCase.reachability.expected.values)
    ensures rounds == if first == 0 then 1 else 2
    ensures wrong == if first == 0 then 0
                     else RoundFailures(testCase, reachTargetPod, measureBandwidth, net, ignoreLoopback, views, names)
  {
    rounds := Retry(net, first, model, testCase, reachTargetPod, measureBandwidth, ignoreLoopback, pods, views, names);
    wrong := CountWrong(model, testCase, ignoreLoopback, measureBandwidth, pods, views, names);
  }

  /**
   * The returned number is exactly how many pairs failed in the last round run, and a second round is run exactly when
   * some pair failed in the first.
   */
  method ValidateAndMeasureBandwidthOrFail(nets: seq<Network>, model: Model, testCase: TestCase, ignoreLoopback: bool,
                                           reachTargetPod: bool, measureBandwidth: bool,
                                           ghost pods: seq<Pod>, ghost views: seq<PodView>, ghost names: seq<string>)
    returns (wrong: nat, rounds: nat)
    requires |nets| == 2
    requires Ready(model, testCase, pods, views, names) && Distinct(names) && BuiltFor(testCase.reachability, names)
    modifies model`pods, model`content, testCase.reachability.observed`values, testCase.reachability.observed`bandwidths
    ensures Ready(model, testCase, pods, views, names) && BuiltFor(testCase.reachability, names)
    ensures var first := RoundFailures(testCase, reachTargetPod, measureBandwidth, nets[0], ignoreLoopback, views,
                                       names);
            rounds == if first == 0 then 1 else 2
    ensures wrong
            == RoundFailures(testCase, reachTargetPod, measureBandwidth, nets[rounds - 1], ignoreLoopback, views, names)
    ensures SetupOf(testCase, reachTargetPod, measureBandwidth)
            == old(SetupOf(testCase, reachTargetPod, measureBandwidth))
    ensures testCase.reachability.expected.values == old(testCase.reachability.expected.values)
  {
    wrong := FirstTry(nets[0], model, testCase, reachTargetPod, measureBandwidth, ignoreLoopback, pods, views, names);
    wrong, rounds := SecondTry(nets[1], wrong, model, testCase, reachTargetPod, measureBandwidth, ignoreLoopback,
                               pods, views, names);
  }

  /**
   * The failing pairs in terms of the rules: what a pair should do is what the last rule matching it says, else the
   * default.
   */
  ghost function RuleFailures(default: bool, rules: seq<Rule>, names: seq<string>, answer: Job -> Answer,
                              ignoreLoopback: bool, measure: bool): set<Job>
    requires Splittable(names)
  {
    set from: nat, to: nat | from < |names| && to < |names|
                             && !(ignoreLoopback && from == to)
                             && Fails(Expectation(default, rules, names, names[from], names[to]),
                                      answer(Job(from, to)).connected, answer(Job(from, to)).bandwidth, measure) ::
                                        Job(from, to)
  }

  lemma FailingByRules(default: bool, rules: seq<Rule>, names: seq<string>, answer: Job -> Answer, ignoreLoopback: bool,
                       measure: bool)
    requires Splittable(names)
    ensures FailingPairs(ApplyRules(NewGrid(names, names, Some(default)), rules, names), names, answer, ignoreLoopback,
                         measure)
            == RuleFailures(default, rules, names, answer, ignoreLoopback, measure)
  {
    var g := ApplyRules(NewGrid(names, names, Some(default)), rules, names);
    LastRuleWins(names, default, rules);
    forall from: nat, to: nat | from < |names| && to < |names|
      ensures Cell(g, names[from], names[to]) == Expectation(default, rules, names, names[from], names[to])
    {
      assert Lookup(g, names[from], names[to]) == Some(Expectation(default, rules, names, names[from], names[to]));
    }
    var a := FailingPairs(g, names, answer, ignoreLoopback, measure);
    var b := RuleFailures(default, rules, names, answer, ignoreLoopback, measure);
    forall job
      ensures job in a <==> job in b
    {
      assert job == Job(job.from, job.to);
    }
  }

  /** Issuing the rules of a test one by one on a new table. */
  method Expect(pods: Slice, default: bool, rules: seq<Rule>) returns (r: Reachability)
    requires pods.Valid()
    ensures fresh(r.expected) && fresh(r.observed) && r.pods == pods
    ensures var names := Keys(pods.Contents());
            && Splittable(names) && BuiltFor(r, names)
            && r.expected.values == ApplyRules(NewGrid(names, names, Some(default)), rules, names)
  {
    ghost var names := Keys(pods.Contents());
    KeysSplit(pods.Contents());
    ghost var blank := NewGrid(names, names, Some(default));
    r := new Reachability(pods, default);
    for i := 0 to |rules|
      invariant pods.Valid() && Keys(pods.Contents()) == names && r.observed.values == NewGrid(names, names, None)
      invariant r.observed.bandwidths == NewGrid(names, names, None)
      invariant r.expected.values == ApplyRules(blank, rules[..i], names)
    {
      LastRuleWins(names, default, rules[..i]);
      assert rules[..i + 1][..i] == rules[..i];
      r.ExpectPeer(rules[i].from, rules[i].to, rules[i].connected);
    }
    assert rules[..|rules|] == rules;
    LastRuleWins(names, default, rules);
  }

  /** A test case over the model's pods; building its tables changes no pod. */
  method NewTestCase(model: Model, default: bool, rules: seq<Rule>, setup: Setup,
                     ghost pods: seq<Pod>, ghost views: seq<PodView>, ghost names: seq<string>)
    returns (testCase: TestCase)
    requires model.Valid() && FillCache(model.content).cache == Some(pods) && Snapshot(pods, views, names)
    requires forall p, q :: p in pods && q in pods ==> q.skipProbe || |p.containers| > 0
    modifies model`pods, model`content
    ensures fresh(testCase) && Ready(model, testCase, pods, views, names) && fresh(testCase.reachability.observed)
    ensures SetupOf(testCase, setup.reachTargetPod, setup.measureBandwidth) == setup
    ensures BuiltFor(testCase.reachability, names) && Splittable(names)
    ensures testCase.reachability.expected.values == ApplyRules(NewGrid(names, names, Some(default)), rules, names)
  {
    var all := FillModel(model, pods, views, names);
    testCase := BuildTestCase(model, all, default, rules, setup, pods, views, names);
  }

  method BuildTestCase(model: Model, all: Slice, default: bool, rules: seq<Rule>, setup: Setup,
                       ghost pods: seq<Pod>, ghost views: seq<PodView>, ghost names: seq<string>)
    returns (testCase: TestCase)
    requires all.Valid() && all.Contents() == pods
    requires model.Valid() && FillCache(model.content).cache == Some(pods) && Snapshot(pods, views, names)
    requires forall p, q :: p in pods && q in pods ==> q.skipProbe || |p.containers| > 0
    ensures fresh(testCase) && Ready(model, testCase, pods, views, names) && fresh(testCase.reachability.observed)
    ensures SetupOf(testCase, setup.reachTargetPod, setup.measureBandwidth) == setup
    ensures BuiltFor(testCase.reachability, names) && Splittable(names)
    ensures testCase.reachability.expected.values == ApplyRules(NewGrid(names, names, Some(default)), rules, names)
  {
    assert Keys(pods) == names;
    var r := Expect(all, default, rules);
    testCase := new TestCase(setup.toPort, setup.protocol, setup.serviceType, r);
  }

  /** How many pairs a round gets wrong, by the rules. */
  ghost function RuleFailureCount(default: bool, rules: seq<Rule>, views: seq<PodView>, names: seq<string>,
                                  setup: Setup, net: Network, ignoreLoopback: bool): nat
    requires Splittable(names)
  {
    |RuleFailures(default, rules, names, AnswerTo(views, setup, net), ignoreLoopback, setup.measureBandwidth)|
  }

  /**
   * The pairs Assess counts: those whose answer is not what the rules say or, when measuring, those connected at a
   * known bandwidth below 80,000,000 bits per second.
   */
  lemma CountedExactly(default: bool, rules: seq<Rule>, views: seq<PodView>, names: seq<string>, setup: Setup,
                       net: Network, ignoreLoopback: bool)
    requires Splittable(names) && |views| == |names|
    ensures RuleFailureCount(default, rules, views, names, setup, net, ignoreLoopback)
            == |set from: nat, to: nat | from < |names| && to < |names| && !(ignoreLoopback && from == to)
                  && (var answer := Respond(views, setup, net, Job(from, to));
                      Expectation(default, rules, names, names[from], names[to]) != answer.connected
                      || (setup.measureBandwidth && answer.connected
                          && exists b :: answer.bandwidth == Some(b) && b < 80000000.0)) :: Job(from, to)|
  {
    var counted := set from: nat, to: nat | from < |names| && to < |names| && !(ignoreLoopback && from == to)
                     && (var answer := Respond(views, setup, net, Job(from, to));
                         Expectation(default, rules, names, names[from], names[to]) != answer.connected
                         || (setup.measureBandwidth && answer.connected
                             && exists b :: answer.bandwidth == Some(b) && b < 80000000.0)) :: Job(from, to);
    var failures := RuleFailures(default, rules, names, AnswerTo(views, setup, net), ignoreLoopback,
                                 setup.measureBandwidth);
    forall job
      ensures job in failures <==> job in counted
    {
      if IsJob(job, |names|) {
        var answer := Respond(views, setup, net, job);
        assert job == Job(job.from, job.to);
        assert answer.bandwidth.Some? ==> answer.bandwidth == Some(answer.bandwidth.value);
      }
    }
    assert failures == counted;
  }

  lemma FailuresByRules(default: bool, rules: seq<Rule>, views: seq<PodView>, names: seq<string>, setup: Setup,
                        net: Network, ignoreLoopback: bool)
    requires Splittable(names)
    ensures Failures(ApplyRules(NewGrid(names, names, Some(default)), rules, names), views, names, setup, net,
                     ignoreLoopback)
            == RuleFailureCount(default, rules, views, names, setup, net, ignoreLoopback)
  {
    FailingByRules(default, rules, names, AnswerTo(views, setup, net), ignoreLoopback, setup.measureBandwidth);
  }

  /**
   * End to end: a test case built from the model's pods and any rules, probed at most twice. The number returned is how
   * many pairs the last round run got wrong, by the rules.
   */
  method Assess(nets: seq<Network>, model: Model, default: bool, rules: seq<Rule>, setup: Setup, ignoreLoopback: bool,
                ghost pods: seq<Pod>, ghost views: seq<PodView>, ghost names: seq<string>)
    returns (wrong: nat, rounds: nat)
    requires |nets| == 2
    requires model.Valid() && FillCache(model.content).cache == Some(pods) && Snapshot(pods, views, names)
             && Distinct(names)
    requires forall p, q :: p in pods && q in pods ==> q.skipProbe || |p.containers| > 0
    modifies model`pods, model`content
    ensures Splittable(names)
    ensures rounds == if RuleFailureCount(default, rules, views, names, setup, nets[0], ignoreLoopback) == 0
            then 1 else 2
    ensures wrong == RuleFailureCount(default, rules, views, names, setup, nets[rounds - 1], ignoreLoopback)
  {
    var testCase := NewTestCase(model, default, rules, setup, pods, views, names);
    FailuresByRules(default, rules, views, names, setup, nets[0], ignoreLoopback);
    FailuresByRules(default, rules, views, names, setup, nets[1], ignoreLoopback);
    wrong, rounds := ValidateAndMeasureBandwidthOrFail(nets, model, testCase, ignoreLoopback, setup.reachTargetPod,
                                                       setup.measureBandwidth, pods, views, names);
  }
}
