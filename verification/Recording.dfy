// Recording the answers of a probe round in a truth table, job by job (pkg/matrix/probe.go, reachability.go).
module Recording {
  import opened Text
  import opened TruthTables
  import opened Reachabilities
  import opened ProbeProtocol

  /** Every probed pod has a row; without one, writing its cell panics. */
  ghost predicate HasRows<V>(g: Grid<V>, names: seq<string>) {
    forall i :: 0 <= i < |names| ==> names[i] in g
  }

  ghost predicate AreJobs(jobs: seq<Job>, n: nat) {
    forall i :: 0 <= i < |jobs| ==> IsJob(jobs[i], n)
  }

  /** The table after the answers to the given jobs are written in the given order. */
  ghost function Record<V>(g: Grid<V>, names: seq<string>, jobs: seq<Job>, answer: Job -> V): (r: Grid<V>)
    requires HasRows(g, names) && AreJobs(jobs, |names|)
    ensures r.Keys == g.Keys
  {
    if jobs == [] then g
    else
      var last := jobs[|jobs| - 1];
      Write(Record(g, names, jobs[..|jobs| - 1], answer), names[last.from], names[last.to], answer(last))
  }

  ghost function Position(names: seq<string>, name: string): (i: nat)
    requires name in names
    ensures i < |names| && names[i] == name
  {
    if names[0] == name then 0 else Position(names[1..], name) + 1
  }

  lemma PositionOf(names: seq<string>, i: nat)
    requires Distinct(names) && i < |names|
    ensures Position(names, names[i]) == i
  {
  }

  ghost function JobAt(names: seq<string>, from: string, to: string): Job
    requires from in names && to in names
  {
    Job(Position(names, from), Position(names, to))
  }

  /** With distinct keys, a cell holds the answer to its own job if that was recorded and its old value otherwise. */
  lemma {:induction false} RecordLookup<V>(g: Grid<V>, names: seq<string>, jobs: seq<Job>, answer: Job -> V,
                                             from: string, to: string)
    requires HasRows(g, names) && AreJobs(jobs, |names|) && Distinct(names)
    ensures Lookup(Record(g, names, jobs, answer), from, to) ==
            if from in names && to in names && JobAt(names, from, to) in jobs then Some(answer(JobAt(names, from, to)))
            else Lookup(g, from, to)
    decreases |jobs|
  {
    if jobs != [] {
      var front, last := jobs[..|jobs| - 1], jobs[|jobs| - 1];
      assert jobs == front + [last];
      RecordLookup(g, names, front, answer, from, to);
      WriteLookup(Record(g, names, front, answer), names[last.from], names[last.to], answer(last), from, to);
      PositionOf(names, last.from);
      PositionOf(names, last.to);
    }
  }

  /**
   * Without any assumption on the keys, a cell that some recorded job addresses holds the answer to the last such job:
   * pods that share a key overwrite each other.
   */
  lemma {:induction false} LastAnswerWins<V>(g: Grid<V>, names: seq<string>, jobs: seq<Job>, answer: Job -> V, k: nat)
    requires HasRows(g, names) && AreJobs(jobs, |names|) && k < |jobs|
    requires forall i :: k < i < |jobs| ==>
               !(names[jobs[i].from] == names[jobs[k].from] && names[jobs[i].to] == names[jobs[k].to])
    ensures Lookup(Record(g, names, jobs, answer), names[jobs[k].from], names[jobs[k].to]) == Some(answer(jobs[k]))
    decreases |jobs|
  {
    var front, last := jobs[..|jobs| - 1], jobs[|jobs| - 1];
    WriteLookup(Record(g, names, front, answer), names[last.from], names[last.to], answer(last),
                names[jobs[k].from], names[jobs[k].to]);
    if k < |jobs| - 1 {
      LastAnswerWins(g, names, front, answer, k);
    }
  }

  /** The order in which the collector receives the results does not matter. */
  lemma RecordAnyOrder<V>(g: Grid<V>, names: seq<string>, jobs: seq<Job>, shuffled: seq<Job>, answer: Job -> V)
    requires HasRows(g, names) && AreJobs(jobs, |names|) && AreJobs(shuffled, |names|) && Distinct(names)
    requires multiset(jobs) == multiset(shuffled)
    ensures Record(g, names, jobs, answer) == Record(g, names, shuffled, answer)
  {
    forall from, to
      ensures Lookup(Record(g, names, jobs, answer), from, to) == Lookup(Record(g, names, shuffled, answer), from, to)
    {
      RecordLookup(g, names, jobs, answer, from, to);
      RecordLookup(g, names, shuffled, answer, from, to);
      assert forall job :: job in jobs <==> job in multiset(jobs);
      assert forall job :: job in shuffled <==> job in multiset(shuffled);
    }
    SameGrid(Record(g, names, jobs, answer), Record(g, names, shuffled, answer));
  }

  lemma PermutedJobs(jobs: seq<Job>, n: nat)
    requires multiset(jobs) == multiset(AllJobs(n))
    ensures AreJobs(jobs, n) && AreJobs(AllJobs(n), n)
    ensures forall job :: job in jobs <==> IsJob(job, n)
  {
    AllJobsOnce(n);
    assert forall job :: job in jobs <==> job in multiset(jobs);
    assert forall i :: 0 <= i < |jobs| ==> jobs[i] in multiset(jobs);
    assert forall i :: 0 <= i < |AllJobs(n)| ==> AllJobs(n)[i] in multiset(AllJobs(n));
  }

  /** Nothing but the probed pods has rows or cells. */
  ghost predicate Within<V>(g: Grid<V>, names: seq<string>) {
    g.Keys == (set name | name in names)
    && forall from, to :: Lookup(g, from, to) != None ==> from in names && to in names
  }

  /** What a whole round leaves in a table over its own pods, in closed form. */
  lemma RoundLookup<V>(g: Grid<V>, names: seq<string>, jobs: seq<Job>, answer: Job -> V)
    requires HasRows(g, names) && Within(g, names) && Distinct(names)
    requires multiset(jobs) == multiset(AllJobs(|names|))
    ensures AreJobs(jobs, |names|) && Square(Record(g, names, jobs, answer), names)
    ensures forall from, to :: from in names && to in names ==>
              Lookup(Record(g, names, jobs, answer), from, to) == Some(answer(JobAt(names, from, to)))
  {
    PermutedJobs(jobs, |names|);
    forall from, to
      ensures Lookup(Record(g, names, jobs, answer), from, to) ==
              if from in names && to in names then Some(answer(JobAt(names, from, to))) else None
    {
      RecordLookup(g, names, jobs, answer, from, to);
    }
  }

  /** A round erases history: from any two earlier tables over the same pods, the same answers give the same table. */
  lemma RoundErasesHistory<V>(g: Grid<V>, h: Grid<V>, names: seq<string>, jobs: seq<Job>, shuffled: seq<Job>,
                              answer: Job -> V)
    requires HasRows(g, names) && Within(g, names) && HasRows(h, names) && Within(h, names) && Distinct(names)
    requires multiset(jobs) == multiset(AllJobs(|names|)) == multiset(shuffled)
    ensures AreJobs(jobs, |names|) && AreJobs(shuffled, |names|)
    ensures Record(g, names, jobs, answer) == Record(h, names, shuffled, answer)
  {
    RoundLookup(g, names, jobs, answer);
    RoundLookup(h, names, shuffled, answer);
    SquareGridsEqual(Record(g, names, jobs, answer), Record(h, names, shuffled, answer), names);
  }

  lemma SquareGridsEqual<V>(a: Grid<V>, b: Grid<V>, names: seq<string>)
    requires Square(a, names) && Square(b, names)
    requires forall from, to :: from in names && to in names ==> Lookup(a, from, to) == Lookup(b, from, to)
    ensures a == b
  {
    forall from, to
      ensures Lookup(a, from, to) == Lookup(b, from, to)
    {
      assert Lookup(a, from, to) != None <==> from in names && to in names;
      assert Lookup(b, from, to) != None <==> from in names && to in names;
    }
    SameGrid(a, b);
  }

  lemma CollectedAreJobs(round: Round, s: State)
    requires Inv(round, s)
    ensures AreJobs(JobsOf(s.collected), round.n) && AreJobs(JobsOf(s.results), round.n)
    ensures forall w :: 0 <= w < |s.workers| && s.workers[w].Probing? ==> IsJob(s.workers[w].job, round.n)
    ensures multiset(JobsOf(s.collected)) <= multiset(AllJobs(round.n))
  {
    AllJobsOnce(round.n);
    forall job | job in Everywhere(s)
      ensures IsJob(job, round.n)
    {
      assert multiset(AllJobs(round.n))[job] > 0;
    }
    forall i | 0 <= i < |s.collected|
      ensures IsJob(JobsOf(s.collected)[i], round.n)
    {
      assert JobsOf(s.collected)[i] in multiset(JobsOf(s.collected));
    }
    forall i | 0 <= i < |s.results|
      ensures IsJob(JobsOf(s.results)[i], round.n)
    {
      assert JobsOf(s.results)[i] in multiset(JobsOf(s.results));
    }
    forall w | 0 <= w < |s.workers| && s.workers[w].Probing?
      ensures IsJob(s.workers[w].job, round.n)
    {
      HeldInFlight(s.workers, w);
    }
  }

  lemma {:induction false} HeldInFlight(workers: seq<Worker>, w: nat)
    requires w < |workers| && workers[w].Probing?
    ensures workers[w].job in InFlight(workers)
  {
    if w > 0 {
      HeldInFlight(workers[1..], w - 1);
    }
  }

  ghost predicate AllPresent(jobs: seq<Job>, n: nat) {
    forall i, j :: 0 <= i < n && 0 <= j < n ==> Job(i, j) in jobs
  }

  /** A cell of a fresh table is set once its job is recorded. */
  lemma FreshCell<V>(names: seq<string>, jobs: seq<Job>, answer: Job -> V, i: nat, j: nat)
    requires AreJobs(jobs, |names|) && Distinct(names) && i < |names| && j < |names|
    ensures HasRows(NewGrid<V>(names, names, None), names)
    ensures Lookup(Record(NewGrid(names, names, None), names, jobs, answer), names[i], names[j]) != None <==>
            Job(i, j) in jobs
  {
    RecordLookup(NewGrid(names, names, None), names, jobs, answer, names[i], names[j]);
    PositionOf(names, i);
    PositionOf(names, j);
  }

  lemma CompleteWhenAllPresent<V>(names: seq<string>, jobs: seq<Job>, answer: Job -> V)
    requires AreJobs(jobs, |names|) && Distinct(names)
    ensures HasRows(NewGrid<V>(names, names, None), names)
    ensures Complete(Record(NewGrid(names, names, None), names, jobs, answer), names, names) <==>
            AllPresent(jobs, |names|)
  {
    var table := Record(NewGrid(names, names, None), names, jobs, answer);
    if Complete(table, names, names) {
      forall i, j | 0 <= i < |names| && 0 <= j < |names|
        ensures Job(i, j) in jobs
      {
        FreshCell(names, jobs, answer, i, j);
      }
    }
    if AllPresent(jobs, |names|) {
      forall i, j | 0 <= i < |names| && 0 <= j < |names|
        ensures Lookup(table, names[i], names[j]) != None
      {
        FreshCell(names, jobs, answer, i, j);
        assert Job(i, j) in jobs;
      }
    }
  }

  lemma AllPresentWhenAllCollected(round: Round, s: State)
    requires Inv(round, s)
    ensures AllPresent(JobsOf(s.collected), round.n) <==> |s.collected| == Size(round)
  {
    CollectedAreJobs(round, s);
    if |s.collected| == Size(round) {
      AllCollected(round, s);
      PermutedJobs(JobsOf(s.collected), round.n);
    }
    if AllPresent(JobsOf(s.collected), round.n) {
      NothingMissing(round.n, JobsOf(s.collected));
    }
  }

  lemma NothingMissing(n: nat, jobs: seq<Job>)
    requires multiset(jobs) <= multiset(AllJobs(n)) && AllPresent(jobs, n)
    ensures |jobs| == n * n
  {
    AllJobsOnce(n);
    forall job
      ensures multiset(jobs)[job] == multiset(AllJobs(n))[job]
    {
      if IsJob(job, n) {
        assert Job(job.from, job.to) in jobs;
        assert job in multiset(jobs);
      }
    }
    assert multiset(jobs) == multiset(AllJobs(n));
    assert |multiset(jobs)| == |jobs|;
  }

  /** The table of a fresh Observed becomes complete exactly when the last of the n x n results is collected. */
  lemma CompleteAtTheEnd<V>(round: Round, schedule: seq<Action>, names: seq<string>, answer: Job -> V)
    requires Exec(round, Init(round), schedule).Some?
    requires Distinct(names) && |names| == round.n
    ensures var s := Exec(round, Init(round), schedule).value;
            && AreJobs(JobsOf(s.collected), |names|) && HasRows(NewGrid<V>(names, names, None), names)
            && (Complete(Record(NewGrid(names, names, None), names, JobsOf(s.collected), answer), names, names)
                <==> |s.collected| == Size(round))
  {
    InitInv(round);
    ExecKeepsInv(round, Init(round), schedule);
    var s := Exec(round, Init(round), schedule).value;
    CollectedAreJobs(round, s);
    CompleteWhenAllPresent(names, JobsOf(s.collected), answer);
    AllPresentWhenAllCollected(round, s);
  }

  // ---------- Against the sequential double loop ----------

  /** The table after the collected results are written one by one, each with the answer it carries. */
  ghost function WriteResults<V>(g: Grid<V>, names: seq<string>, results: seq<Result>, value: Answer -> V): (r: Grid<V>)
    requires HasRows(g, names) && AreJobs(JobsOf(results), |names|)
    ensures r.Keys == g.Keys
  {
    if results == [] then g
    else
      var front, last := results[..|results| - 1], results[|results| - 1];
      assert JobsOf(results)[|results| - 1] == last.job;
      assert JobsOf(front) == JobsOf(results)[..|results| - 1];
      Write(WriteResults(g, names, front, value), names[last.job.from], names[last.job.to], value(last.answer))
  }

  lemma {:induction false} HonestResults<V>(round: Round, g: Grid<V>, names: seq<string>, results: seq<Result>,
                                            value: Answer -> V)
    requires HasRows(g, names) && AreJobs(JobsOf(results), |names|) && Honest(round, results)
    ensures WriteResults(g, names, results, value)
            == Record(g, names, JobsOf(results), (job: Job) => value(round.answer(job)))
  {
    if results != [] {
      var front := results[..|results| - 1];
      assert JobsOf(front) == JobsOf(results)[..|results| - 1];
      HonestResults(round, g, names, front, value);
    }
  }

  /**
   * Every interleaving that returns leaves the table of the plain double loop over the pods, which asks and records one
   * pair after the other.
   */
  lemma RunsLikeTheDoubleLoop<V>(round: Round, schedule: seq<Action>, g: Grid<V>, names: seq<string>,
                                 value: Answer -> V)
    requires Exec(round, Init(round), schedule).Some? && Exec(round, Init(round), schedule).value.main.Returned?
    requires HasRows(g, names) && Distinct(names) && |names| == round.n
    ensures var collected := Exec(round, Init(round), schedule).value.collected;
            && AreJobs(JobsOf(collected), |names|) && AreJobs(AllJobs(|names|), |names|)
            && WriteResults(g, names, collected, value)
               == Record(g, names, AllJobs(|names|), (job: Job) => value(round.answer(job)))
  {
    InitInv(round);
    ExecKeepsInv(round, Init(round), schedule);
    var s := Exec(round, Init(round), schedule).value;
    AllCollected(round, s);
    PermutedJobs(JobsOf(s.collected), round.n);
    HonestResults(round, g, names, s.collected, value);
    RecordAnyOrder(g, names, JobsOf(s.collected), AllJobs(|names|), (job: Job) => value(round.answer(job)));
  }
}
