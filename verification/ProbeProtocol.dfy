// One probe round as a transition system: the main goroutine, the workers and their two channels
// (pkg/matrix/probe.go). Every interleaving of the goroutines is a sequence of the actions below.
module ProbeProtocol {
  import opened Text

  /** A probe from the pod at one position of the pod list to the pod at another. */
  datatype Job = Job(from: nat, to: nat)

  datatype Answer = Answer(connected: bool, bandwidth: Option<real>)

  datatype Result = Result(job: Job, answer: Answer)

  datatype Worker = Waiting | Probing(job: Job) | Exited

  /** The main goroutine sends every job, closes the jobs channel, collects every result and returns. */
  datatype Main = Sending | Collecting | Returned

  datatype State = State(
    main: Main,
    unsent: seq<Job>,
    jobs: seq<Job>,
    workers: seq<Worker>,
    results: seq<Result>,
    collected: seq<Result>)

  /** `answer` says how each probe of this round turns out. */
  datatype Round = Round(n: nat, workers: nat, answer: Job -> Answer)

  datatype Action = Send | Close | Take(w: nat) | Deliver(w: nat) | Exit(w: nat) | Collect | Return

  // ---------- The jobs of a round ----------

  function JobsFrom(from: nat, n: nat): seq<Job> {
    seq(n, to requires 0 <= to < n => Job(from, to))
  }

  /** The jobs of the first `rows` pods, in the order of the double loop. */
  function JobRows(rows: nat, n: nat): (r: seq<Job>)
    ensures |r| == rows * n
  {
    if rows == 0 then [] else JobRows(rows - 1, n) + JobsFrom(rows - 1, n)
  }

  function AllJobs(n: nat): (r: seq<Job>)
    ensures |r| == n * n
  {
    JobRows(n, n)
  }

  ghost predicate IsJob(job: Job, n: nat) {
    job.from < n && job.to < n
  }

  lemma {:induction false} JobsFromOnce(from: nat, n: nat, k: nat, job: Job)
    requires k <= n
    ensures multiset(JobsFrom(from, n)[..k])[job] == if job.from == from && job.to < k then 1 else 0
  {
    if k > 0 {
      JobsFromOnce(from, n, k - 1, job);
      assert JobsFrom(from, n)[..k] == JobsFrom(from, n)[..k - 1] + [Job(from, k - 1)];
    }
  }

  lemma {:induction false} JobRowsOnce(rows: nat, n: nat, job: Job)
    ensures multiset(JobRows(rows, n))[job] == if job.from < rows && job.to < n then 1 else 0
  {
    if rows > 0 {
      JobRowsOnce(rows - 1, n, job);
      JobsFromOnce(rows - 1, n, n, job);
      assert JobsFrom(rows - 1, n)[..n] == JobsFrom(rows - 1, n);
    }
  }

  /** The double loop enqueues each ordered pair of pods exactly once and nothing else. */
  lemma AllJobsOnce(n: nat)
    ensures forall job :: multiset(AllJobs(n))[job] == if IsJob(job, n) then 1 else 0
    ensures forall job :: job in AllJobs(n) <==> IsJob(job, n)
  {
    forall job
      ensures multiset(AllJobs(n))[job] == if IsJob(job, n) then 1 else 0
      ensures job in AllJobs(n) <==> IsJob(job, n)
    {
      JobRowsOnce(n, n, job);
      assert job in AllJobs(n) <==> job in multiset(AllJobs(n));
    }
  }

  // ---------- States and steps ----------

  function Init(round: Round): State {
    State(Sending, AllJobs(round.n), [], seq(round.workers, _ => Waiting), [], [])
  }

  function Size(round: Round): nat {
    round.n * round.n
  }

  /** Both channels are buffered for Size values: a send blocks on a full buffer, a receive on an empty open one. */
  predicate Enabled(round: Round, s: State, a: Action) {
    match a
    case Send => s.main.Sending? && s.unsent != [] && |s.jobs| < Size(round)
    case Close => s.main.Sending? && s.unsent == []
    case Take(w) => w < |s.workers| && s.workers[w].Waiting? && s.jobs != []
    case Deliver(w) => w < |s.workers| && s.workers[w].Probing? && |s.results| < Size(round)
    case Exit(w) => w < |s.workers| && s.workers[w].Waiting? && s.jobs == [] && !s.main.Sending?
    case Collect => s.main.Collecting? && |s.collected| < Size(round) && s.results != []
    case Return => s.main.Collecting? && |s.collected| == Size(round)
  }

  function Apply(round: Round, s: State, a: Action): State
    requires Enabled(round, s, a)
  {
    match a
    case Send => s.(jobs := s.jobs + [s.unsent[0]], unsent := s.unsent[1..])
    case Close => s.(main := Collecting)
    case Take(w) => s.(workers := s.workers[w := Probing(s.jobs[0])], jobs := s.jobs[1..])
    case Deliver(w) =>
      var job := s.workers[w].job;
      s.(workers := s.workers[w := Waiting], results := s.results + [Result(job, round.answer(job))])
    case Exit(w) => s.(workers := s.workers[w := Exited])
    case Collect => s.(collected := s.collected + [s.results[0]], results := s.results[1..])
    case Return => s.(main := Returned)
  }

  /** The state after a schedule, if every action of it is enabled when its turn comes. */
  function Exec(round: Round, s: State, schedule: seq<Action>): Option<State>
    decreases schedule
  {
    if schedule == [] then Some(s)
    else if Enabled(round, s, schedule[0]) then Exec(round, Apply(round, s, schedule[0]), schedule[1..])
    else None
  }

  ghost predicate Final(s: State) {
    s.main.Returned? && forall w :: 0 <= w < |s.workers| ==> s.workers[w].Exited?
  }

  // ---------- What every step keeps ----------

  function JobsOf(results: seq<Result>): (r: seq<Job>)
    ensures |r| == |results|
  {
    seq(|results|, i requires 0 <= i < |results| => results[i].job)
  }

  function Held(worker: Worker): multiset<Job> {
    if worker.Probing? then multiset{worker.job} else multiset{}
  }

  function InFlight(workers: seq<Worker>): multiset<Job> {
    if workers == [] then multiset{} else Held(workers[0]) + InFlight(workers[1..])
  }

  function Alive(workers: seq<Worker>): nat {
    if workers == [] then 0 else (if workers[0].Exited? then 0 else 1) + Alive(workers[1..])
  }

  /** Every job of the round, wherever it is now. */
  function Everywhere(s: State): multiset<Job> {
    multiset(s.unsent) + multiset(s.jobs) + InFlight(s.workers) + multiset(JobsOf(s.results))
      + multiset(JobsOf(s.collected))
  }

  ghost predicate Honest(round: Round, results: seq<Result>) {
    forall i :: 0 <= i < |results| ==> results[i].answer == round.answer(results[i].job)
  }

  ghost predicate Inv(round: Round, s: State) {
    && Everywhere(s) == multiset(AllJobs(round.n))
    && Phases(round, s)
  }

  /** Results are the answers of this round, and the goroutines are where the phase allows. */
  ghost predicate Phases(round: Round, s: State) {
    && Honest(round, s.results) && Honest(round, s.collected)
    && |s.workers| == round.workers
    && (s.main.Sending? ==> s.collected == [])
    && (!s.main.Sending? ==> s.unsent == [])
    && (s.main.Returned? ==> |s.collected| == Size(round))
    && (forall w :: 0 <= w < |s.workers| && s.workers[w].Exited? ==> !s.main.Sending? && s.jobs == [])
  }

  /** Exactly how many actions are left. */
  function StepsLeft(s: State): nat {
    4 * |s.unsent| + 3 * |s.jobs| + 2 * |InFlight(s.workers)| + |s.results| + Alive(s.workers)
    + (match s.main case Sending => 2 case Collecting => 1 case Returned => 0)
  }

  lemma AddBoth(a: multiset<Job>, x: multiset<Job>, b: multiset<Job>, y: multiset<Job>, c: multiset<Job>)
    requires a + x == b + y
    ensures c + a + x == c + b + y
  {
    assert c + a + x == c + (a + x);
    assert c + b + y == c + (b + y);
  }

  lemma Swapped(a: multiset<Job>, b: multiset<Job>, c: multiset<Job>)
    ensures a + b + c == c + b + a
  {
    assert a + b + c == c + (a + b);
  }

  lemma {:induction false} UpdateInFlight(workers: seq<Worker>, w: nat, x: Worker)
    requires w < |workers|
    ensures InFlight(workers[w := x]) + Held(workers[w]) == InFlight(workers) + Held(x)
  {
    var updated := workers[w := x];
    if w == 0 {
      assert updated[1..] == workers[1..];
      Swapped(Held(x), InFlight(workers[1..]), Held(workers[0]));
    } else {
      assert updated[1..] == workers[1..][w - 1 := x] && updated[0] == workers[0];
      UpdateInFlight(workers[1..], w - 1, x);
      AddBoth(InFlight(updated[1..]), Held(workers[w]), InFlight(workers[1..]), Held(x), Held(workers[0]));
    }
  }

  lemma {:induction false} UpdateWorker(workers: seq<Worker>, w: nat, x: Worker)
    requires w < |workers|
    ensures InFlight(workers[w := x]) + Held(workers[w]) == InFlight(workers) + Held(x)
    ensures Alive(workers[w := x]) + (if workers[w].Exited? then 0 else 1)
            == Alive(workers) + (if x.Exited? then 0 else 1)
  {
    UpdateInFlight(workers, w, x);
    if w == 0 {
      assert workers[w := x][1..] == workers[1..];
    } else {
      assert workers[w := x][1..] == workers[1..][w - 1 := x] && workers[w := x][0] == workers[0];
      UpdateWorker(workers[1..], w - 1, x);
    }
  }

  lemma JobsOfAppend(results: seq<Result>, r: Result)
    ensures JobsOf(results + [r]) == JobsOf(results) + [r.job]
  {
  }

  lemma JobsOfHead(results: seq<Result>)
    requires results != []
    ensures multiset(JobsOf(results)) == multiset{results[0].job} + multiset(JobsOf(results[1..]))
  {
    assert JobsOf(results) == [results[0].job] + JobsOf(results[1..]);
  }

  lemma SendStep(round: Round, s: State)
    requires Enabled(round, s, Send)
    ensures Everywhere(Apply(round, s, Send)) == Everywhere(s)
    ensures StepsLeft(Apply(round, s, Send)) == StepsLeft(s) - 1
  {
    assert s.unsent == [s.unsent[0]] + s.unsent[1..];
  }

  lemma CollectStep(round: Round, s: State)
    requires Enabled(round, s, Collect)
    ensures Everywhere(Apply(round, s, Collect)) == Everywhere(s)
    ensures StepsLeft(Apply(round, s, Collect)) == StepsLeft(s) - 1
  {
    JobsOfAppend(s.collected, s.results[0]);
    JobsOfHead(s.results);
  }

  lemma TakeStep(round: Round, s: State, w: nat)
    requires Enabled(round, s, Take(w))
    ensures Everywhere(Apply(round, s, Take(w))) == Everywhere(s)
    ensures StepsLeft(Apply(round, s, Take(w))) == StepsLeft(s) - 1
  {
    UpdateWorker(s.workers, w, Probing(s.jobs[0]));
    var t := Apply(round, s, Take(w));
    assert multiset(s.jobs) == multiset{s.jobs[0]} + multiset(t.jobs) by {
      assert s.jobs == [s.jobs[0]] + t.jobs;
    }
    assert InFlight(t.workers) == InFlight(s.workers) + multiset{s.jobs[0]};
  }

  lemma DeliverStep(round: Round, s: State, w: nat)
    requires Enabled(round, s, Deliver(w))
    ensures Everywhere(Apply(round, s, Deliver(w))) == Everywhere(s)
    ensures StepsLeft(Apply(round, s, Deliver(w))) == StepsLeft(s) - 1
  {
    UpdateWorker(s.workers, w, Waiting);
    var t := Apply(round, s, Deliver(w));
    JobsOfAppend(s.results, t.results[|s.results|]);
    assert InFlight(t.workers) + multiset{s.workers[w].job} == InFlight(s.workers);
    assert |InFlight(t.workers) + multiset{s.workers[w].job}| == |InFlight(s.workers)|;
  }

  lemma ExitStep(round: Round, s: State, w: nat)
    requires Enabled(round, s, Exit(w))
    ensures Everywhere(Apply(round, s, Exit(w))) == Everywhere(s)
    ensures StepsLeft(Apply(round, s, Exit(w))) == StepsLeft(s) - 1
  {
    UpdateWorker(s.workers, w, Exited);
    var t := Apply(round, s, Exit(w));
    var before, after := InFlight(s.workers), InFlight(t.workers);
    assert before == after by {
      assert before == before + multiset{} && after == after + multiset{};
    }
    assert t == s.(workers := t.workers);
  }

  lemma RestKept(round: Round, s: State, a: Action)
    requires Phases(round, s) && Enabled(round, s, a)
    ensures Phases(round, Apply(round, s, a))
  {
  }

  /** No action loses, duplicates or invents a job, and each one uses up exactly one of the steps left. */
  lemma StepKeepsInv(round: Round, s: State, a: Action)
    requires Inv(round, s) && Enabled(round, s, a)
    ensures Inv(round, Apply(round, s, a))
    ensures StepsLeft(Apply(round, s, a)) == StepsLeft(s) - 1
  {
    RestKept(round, s, a);
    match a {
      case Take(w) => TakeStep(round, s, w);
      case Deliver(w) => DeliverStep(round, s, w);
      case Exit(w) => ExitStep(round, s, w);
      case Send => SendStep(round, s);
      case Collect => CollectStep(round, s);
      case _ =>
    }
  }

  lemma {:induction false} WaitingWorkers(k: nat)
    ensures var ws := seq(k, _ => Waiting); InFlight(ws) == multiset{} && Alive(ws) == k
  {
    var ws := seq(k, _ => Waiting);
    if k > 0 {
      WaitingWorkers(k - 1);
      assert ws[1..] == seq(k - 1, _ => Waiting);
    }
  }

  lemma InitInv(round: Round)
    ensures Inv(round, Init(round))
    ensures StepsLeft(Init(round)) == 4 * Size(round) + round.workers + 2
  {
    WaitingWorkers(round.workers);
  }

  lemma {:induction false} ExecKeepsInv(round: Round, s: State, schedule: seq<Action>)
    requires Inv(round, s) && Exec(round, s, schedule).Some?
    ensures Inv(round, Exec(round, s, schedule).value)
    ensures StepsLeft(Exec(round, s, schedule).value) == StepsLeft(s) - |schedule|
    decreases schedule
  {
    if schedule != [] {
      StepKeepsInv(round, s, schedule[0]);
      ExecKeepsInv(round, Apply(round, s, schedule[0]), schedule[1..]);
    }
  }

  /** Conservation: in every reachable state each ordered pair is in exactly one place, and nothing else is. */
  lemma Conservation(round: Round, schedule: seq<Action>, job: Job)
    requires Exec(round, Init(round), schedule).Some?
    ensures var s := Exec(round, Init(round), schedule).value;
            Everywhere(s)[job] == if IsJob(job, round.n) then 1 else 0
  {
    InitInv(round);
    ExecKeepsInv(round, Init(round), schedule);
    AllJobsOnce(round.n);
  }

  // ---------- Progress ----------

  lemma Counts(round: Round, s: State)
    requires Inv(round, s)
    ensures |s.unsent| + |s.jobs| + |InFlight(s.workers)| + |s.results| + |s.collected| == Size(round)
  {
    assert |Everywhere(s)| == |s.unsent| + |s.jobs| + |InFlight(s.workers)| + |s.results| + |s.collected|;
  }

  lemma {:induction false} NoneHeld(workers: seq<Worker>)
    ensures InFlight(workers) == multiset{} <==> forall w :: 0 <= w < |workers| ==> !workers[w].Probing?
  {
    if workers != [] {
      NoneHeld(workers[1..]);
      assert forall w :: 0 < w < |workers| ==> workers[w] == workers[1..][w - 1];
      if InFlight(workers) == multiset{} {
        forall w | 0 <= w < |workers|
          ensures !workers[w].Probing?
        {
          if w == 0 {
            assert |Held(workers[0])| == 0;
          } else {
            assert |InFlight(workers[1..])| == 0;
            assert !workers[1..][w - 1].Probing?;
          }
        }
      }
    }
  }

  /** No send ever blocks: a goroutine with something to send always has room in the buffer. */
  lemma SendsNeverBlock(round: Round, s: State)
    requires Inv(round, s)
    ensures s.main.Sending? && s.unsent != [] ==> Enabled(round, s, Send)
    ensures forall w :: 0 <= w < |s.workers| && s.workers[w].Probing? ==> Enabled(round, s, Deliver(w))
  {
    Counts(round, s);
    forall w | 0 <= w < |s.workers| && s.workers[w].Probing?
      ensures Enabled(round, s, Deliver(w))
    {
      NoneHeld(s.workers);
      assert |InFlight(s.workers)| > 0;
    }
  }

  /** No deadlock: until main has returned and every worker has exited, some action is enabled. */
  lemma Progress(round: Round, s: State) returns (a: Action)
    requires Inv(round, s) && !Final(s)
    requires round.workers >= 1 || round.n == 0
    ensures Enabled(round, s, a)
    ensures !s.main.Returned? || a.Exit?
  {
    Counts(round, s);
    NoneHeld(s.workers);
    SendsNeverBlock(round, s);
    if s.main.Sending? {
      return if s.unsent == [] then Close else Send;
    }
    if s.main.Returned? {
      assert |InFlight(s.workers)| == 0;
      var w :| 0 <= w < |s.workers| && !s.workers[w].Exited?;
      return Exit(w);
    }
    if |s.collected| == Size(round) {
      return Return;
    } else if s.results != [] {
      return Collect;
    } else if w :| 0 <= w < |s.workers| && s.workers[w].Probing? {
      return Deliver(w);
    } else {
      assert |InFlight(s.workers)| == 0;
      assert s.jobs != [];
      assert s.workers[0].Waiting?;
      return Take(0);
    }
  }

  lemma NothingLeft(round: Round, s: State)
    requires Inv(round, s) && Final(s)
    ensures StepsLeft(s) == 0
  {
    Counts(round, s);
    NoneAlive(s.workers);
  }

  lemma {:induction false} NoneAlive(workers: seq<Worker>)
    requires forall w :: 0 <= w < |workers| ==> workers[w].Exited?
    ensures Alive(workers) == 0
  {
    if workers != [] {
      NoneAlive(workers[1..]);
    }
  }

  ghost predicate Stuck(round: Round, s: State) {
    forall a :: !Enabled(round, s, a)
  }

  lemma StuckOnlyAtTheEnd(round: Round, s: State)
    requires Inv(round, s) && (round.workers >= 1 || round.n == 0)
    ensures Stuck(round, s) <==> Final(s)
    ensures Final(s) <==> StepsLeft(s) == 0
  {
    if Final(s) {
      NothingLeft(round, s);
      Counts(round, s);
    } else {
      var a := Progress(round, s);
      StepKeepsInv(round, s, a);
    }
  }

  /**
   * Every schedule is finite and every complete one has the same length, whatever the interleaving:
   * it ends with main returned, every worker exited and every pair collected.
   */
  lemma CompleteRuns(round: Round, schedule: seq<Action>)
    requires round.workers >= 1 || round.n == 0
    requires Exec(round, Init(round), schedule).Some?
    ensures |schedule| <= 4 * Size(round) + round.workers + 2
    ensures var s := Exec(round, Init(round), schedule).value;
            && (Stuck(round, s) <==> Final(s))
            && (Final(s) <==> |schedule| == 4 * Size(round) + round.workers + 2)
            && (s.main.Returned? ==> multiset(JobsOf(s.collected)) == multiset(AllJobs(round.n)))
  {
    InitInv(round);
    ExecKeepsInv(round, Init(round), schedule);
    var s := Exec(round, Init(round), schedule).value;
    StuckOnlyAtTheEnd(round, s);
    if s.main.Returned? {
      AllCollected(round, s);
    }
  }

  lemma AllCollected(round: Round, s: State)
    requires Inv(round, s) && |s.collected| == Size(round)
    ensures multiset(JobsOf(s.collected)) == multiset(AllJobs(round.n))
  {
    Counts(round, s);
    assert InFlight(s.workers) == multiset{};
  }

  /** Without workers a round over at least one pod collects nothing and never returns; the code starts three. */
  lemma {:induction false} NoWorkersNoRound(round: Round, s: State, schedule: seq<Action>)
    requires round.n > 0 && s.workers == [] && s.results == [] && s.collected == [] && !s.main.Returned?
    requires Exec(round, s, schedule).Some?
    ensures var t := Exec(round, s, schedule).value; t.collected == [] && !t.main.Returned?
    decreases schedule
  {
    if schedule != [] {
      assert Size(round) > 0;
      NoWorkersNoRound(round, Apply(round, s, schedule[0]), schedule[1..]);
    }
  }
}
