// Probe workers and the concurrent probe round (pkg/matrix/probe.go).
module Probes {
  import opened Text
  import opened Entities
  import opened TruthTables
  import opened Reachabilities
  import opened ProbeProtocol
  import opened Recording
  import opened ModelSpec
  import opened Slices
  import opened Models

  // The code counts its workers from one up to this number, so it starts one fewer.
  const NUMBER_OF_WORKERS := 4

  datatype Tool = Connect | Netcat | IPerf

  /** What a worker runs in the source pod. */
  datatype Request = Request(tool: Tool, namespace: string, pod: string, addr: string, protocol: string, port: int)

  /** What running it comes to; the endpoint is Netcat's and the bandwidth IPerf's. */
  datatype Reply = Reply(connected: bool, endpoint: string, bandwidth: Option<real>)

  // How the cluster answers the probes of one round, an arbitrary function.
  type Network = (Job, Request) -> Reply

  /** What all jobs of a round have in common. */
  datatype Setup = Setup(toPort: int, protocol: string, serviceType: string, reachTargetPod: bool,
                         measureBandwidth: bool)

  class TestCase {
    const toPort: int
    const protocol: string
    var serviceType: string
    var reachability: Reachability?

    constructor (toPort: int, protocol: string, serviceType: string, reachability: Reachability?)
      ensures this.toPort == toPort && this.protocol == protocol
      ensures this.serviceType == serviceType && this.reachability == reachability
    {
      this.toPort, this.protocol, this.serviceType, this.reachability := toPort, protocol, serviceType, reachability;
    }
  }

  /** Only TCP and UDP have load balancer addresses here, and only the first one is tried. */
  function ChooseAddress(to: PodView, serviceType: string, protocol: string): string {
    if serviceType == CLUSTER_IP then to.clusterIP
    else if serviceType == NODE_PORT then to.hostIP
    else if serviceType == EXTERNAL_NAME then to.serviceName
    else if serviceType == LOAD_BALANCER then
      var ips := if protocol == TCP || protocol == UDP then ByProtocol(to.externalIPs, protocol) else [];
      if ips == [] then "" else ips[0].ip
    else to.podIP
  }

  function ChooseTool(setup: Setup): Tool {
    if setup.measureBandwidth then IPerf else if setup.reachTargetPod then Netcat else Connect
  }

  function RequestFor(from: PodView, to: PodView, setup: Setup): Request {
    Request(ChooseTool(setup), from.namespace, from.name, ChooseAddress(to, setup.serviceType, setup.protocol),
            setup.protocol, if setup.toPort == 0 then to.toPort else setup.toPort)
  }

  /** The answer a worker gives to one job. */
  function Respond(pods: seq<PodView>, setup: Setup, net: Network, job: Job): Answer
    requires IsJob(job, |pods|)
  {
    var to := pods[job.to];
    if to.skipProbe then Answer(true, None)
    else
      var reply := net(job, RequestFor(pods[job.from], to, setup));
      var endpoint := if ChooseTool(setup).Netcat? then reply.endpoint else "";
      Answer(reply.connected && (setup.reachTargetPod ==> to.name == endpoint),
             if ChooseTool(setup).IPerf? then reply.bandwidth else None)
  }

  /**
   * What the cluster is asked for an unskipped target, field by field, and what becomes of its reply. Unless the
   * service type says otherwise the probe aims at the pod's own address. The name of the target is compared with the
   * endpoint of Netcat, which runs only when nothing is measured.
   */
  lemma AnswerRead(pods: seq<PodView>, setup: Setup, net: Network, job: Job) returns (q: Request)
    requires IsJob(job, |pods|) && !pods[job.to].skipProbe
    ensures q.namespace == pods[job.from].namespace && q.pod == pods[job.from].name && q.protocol == setup.protocol
    ensures setup.serviceType == "clusteip" ==> q.addr == pods[job.to].clusterIP
    ensures setup.serviceType == "nodeport" ==> q.addr == pods[job.to].hostIP
    ensures setup.serviceType == "externalname" ==> q.addr == pods[job.to].serviceName
    ensures setup.serviceType !in {"clusteip", "nodeport", "externalname", "loadbalancer"} ==>
              q.addr == pods[job.to].podIP
    ensures setup.serviceType == "loadbalancer" && setup.protocol in {"TCP", "UDP"} ==>
              forall k :: 0 <= k < |pods[job.to].externalIPs|
                          && pods[job.to].externalIPs[k].protocol == setup.protocol
                          && (forall j :: 0 <= j < k ==> pods[job.to].externalIPs[j].protocol != setup.protocol) ==>
                            q.addr == pods[job.to].externalIPs[k].ip
    ensures setup.serviceType == "loadbalancer" && setup.protocol !in {"TCP", "UDP"} ==> q.addr == ""
    ensures setup.serviceType == "loadbalancer" && q.addr != "" ==>
              exists k :: 0 <= k < |pods[job.to].externalIPs| && pods[job.to].externalIPs[k].protocol == setup.protocol
    ensures q.port == if setup.toPort == 0 then pods[job.to].toPort else setup.toPort
    ensures q.tool.IPerf? <==> setup.measureBandwidth
    ensures q.tool.Netcat? <==> !setup.measureBandwidth && setup.reachTargetPod
    ensures var answer, reply := Respond(pods, setup, net, job), net(job, q);
            && (answer.connected <==> reply.connected
                                      && (setup.reachTargetPod ==>
                                            pods[job.to].name == if q.tool.Netcat? then reply.endpoint else ""))
            && answer.bandwidth == if setup.measureBandwidth then reply.bandwidth else None
  {
    q := RequestFor(pods[job.from], pods[job.to], setup);
    ByProtocolFirst(pods[job.to].externalIPs, setup.protocol);
  }

  /**
   * The load balancer address is the first external one with the probe's protocol; without one the probe aims nowhere.
   */
  lemma LoadBalancerAddress(to: PodView, protocol: string)
    ensures ChooseAddress(to, LOAD_BALANCER, protocol) != "" ==>
              exists k :: 0 <= k < |to.externalIPs| && to.externalIPs[k].protocol == protocol
                          && ChooseAddress(to, LOAD_BALANCER, protocol) == to.externalIPs[k].ip
                          && forall j :: 0 <= j < k ==> to.externalIPs[j].protocol != protocol
    ensures (protocol != TCP && protocol != UDP)
            || (forall k :: 0 <= k < |to.externalIPs| ==> to.externalIPs[k].protocol != protocol)
            ==> ChooseAddress(to, LOAD_BALANCER, protocol) == ""
  {
    ByProtocolFirst(to.externalIPs, protocol);
  }

  /**
   * Whether some cluster can make a probe of the pod report a connection. Measuring takes precedence over Netcat, so no
   * endpoint is read then, and yet the pod's name is compared with it.
   */
  predicate Connectable(to: PodView, setup: Setup) {
    to.skipProbe || to.name == "" || !(setup.reachTargetPod && setup.measureBandwidth)
  }

  /** As the IPerf client replies: with a bandwidth exactly when it connected. */
  ghost predicate Plausible(net: Network) {
    forall job: Job, request: Request :: request.tool.IPerf? ==>
      (net(job, request).connected <==> net(job, request).bandwidth.Some?)
  }

  const FAST := 80000000.0

  /** No cluster makes other pods connectable, and those that are some plausible cluster connects. */
  lemma CanConnect(pods: seq<PodView>, setup: Setup, job: Job)
    requires IsJob(job, |pods|)
    ensures (exists net: Network :: Respond(pods, setup, net, job).connected) <==> Connectable(pods[job.to], setup)
    ensures Connectable(pods[job.to], setup) ==>
              exists net: Network :: Plausible(net) && Respond(pods, setup, net, job).connected
  {
    if Connectable(pods[job.to], setup) {
      var net: Network := (_, _) => Reply(true, pods[job.to].name, Some(FAST));
      assert Plausible(net) && Respond(pods, setup, net, job).connected;
    }
  }

  ghost function Views(pods: seq<Pod>): (views: seq<PodView>)
    reads pods
    ensures |views| == |pods| && forall i :: 0 <= i < |pods| ==> views[i] == pods[i].View()
  {
    seq(|pods|, i requires 0 <= i < |pods| reads pods => pods[i].View())
  }

  /** The pairs are numbered in the order AllPods lists the pods. */
  function AnswerTo(pods: seq<PodView>, setup: Setup, net: Network): Job -> Answer {
    (job: Job) => if job.from < |pods| && job.to < |pods| then Respond(pods, setup, net, job) else Answer(false, None)
  }

  function Connected(answer: Job -> Answer): Job -> bool {
    (job: Job) => answer(job).connected
  }

  function Bandwidth(answer: Job -> Answer): Job -> Option<real> {
    (job: Job) => answer(job).bandwidth
  }

  function RoundOf(pods: seq<PodView>, setup: Setup, net: Network): Round {
    Round(|pods|, NUMBER_OF_WORKERS - 1, AnswerTo(pods, setup, net))
  }

  /** Three workers: whatever the interleaving, a complete run of a round takes 4n² + 5 steps. */
  lemma RoundLength(round: Round, pods: seq<PodView>, setup: Setup, net: Network, schedule: seq<Action>)
    requires round == RoundOf(pods, setup, net) && Exec(round, Init(round), schedule).Some?
    ensures round.workers == 3 && |schedule| <= 4 * (|pods| * |pods|) + 5
    ensures Final(Exec(round, Init(round), schedule).value) <==> |schedule| == 4 * (|pods| * |pods|) + 5
  {
    CompleteRuns(round, schedule);
  }

  /** The pods as they are throughout a round, no one changing them meanwhile. */
  ghost predicate Snapshot(pods: seq<Pod>, views: seq<PodView>, names: seq<string>)
    reads pods
  {
    |views| == |names| == |pods|
    && forall i :: 0 <= i < |pods| ==> views[i] == pods[i].View() && names[i] == pods[i].PodString()
  }

  /** The body of a worker's loop. Pods must have a container to run the command in, unless the target is skipped. */
  method RunProbe(net: Network, pods: seq<Pod>, setup: Setup, job: Job, ghost views: seq<PodView>,
                  ghost names: seq<string>)
    returns (answer: Answer)
    requires IsJob(job, |pods|) && Snapshot(pods, views, names)
    requires pods[job.to].skipProbe || |pods[job.from].containers| > 0
    ensures answer == Respond(views, setup, net, job)
    ensures pods[job.to].skipProbe ==> answer == Answer(true, None)
    ensures answer.connected ==> Connectable(views[job.to], setup)
    ensures answer.bandwidth.Some? ==> setup.measureBandwidth && !pods[job.to].skipProbe
    ensures Snapshot(pods, views, names)
  {
    var podFrom, podTo := pods[job.from], pods[job.to];
    if podTo.skipProbe {
      return Answer(true, None);
    }
    var addrTo := "";
    if setup.serviceType == POD_IP {
      addrTo := podTo.podIP;
    } else if setup.serviceType == CLUSTER_IP {
      addrTo := podTo.clusterIP;
    } else if setup.serviceType == NODE_PORT {
      addrTo := podTo.hostIP;
    } else if setup.serviceType == EXTERNAL_NAME {
      addrTo := podTo.serviceName;
    } else if setup.serviceType == LOAD_BALANCER {
      var externalIPs: seq<ExternalIP> := [];
      if setup.protocol == TCP {
        externalIPs := podTo.GetExternalIPsByProtocol(TCP);
      } else if setup.protocol == UDP {
        externalIPs := podTo.GetExternalIPsByProtocol(UDP);
      }
      if |externalIPs| > 0 {
        addrTo := externalIPs[0].ip;
      }
    } else {
      addrTo := podTo.podIP;
    }
    var toPort := if setup.toPort == 0 then podTo.toPort else setup.toPort;
    var connected, endpoint, bandwidth := false, "", None;
    if setup.measureBandwidth {
      var reply := net(job, Request(IPerf, podFrom.namespace, podFrom.name, addrTo, setup.protocol, toPort));
      connected, bandwidth := reply.connected, reply.bandwidth;
    } else if setup.reachTargetPod {
      var reply := net(job, Request(Netcat, podFrom.namespace, podFrom.name, addrTo, setup.protocol, toPort));
      connected, endpoint := reply.connected, reply.endpoint;
    } else {
      var reply := net(job, Request(Connect, podFrom.namespace, podFrom.name, addrTo, setup.protocol, toPort));
      connected := reply.connected;
    }
    if setup.reachTargetPod && podTo.name != endpoint {
      connected := false;
    }
    answer := Answer(connected, bandwidth);
  }

  /** The scheduler: any goroutine that can run may be the next to run. */
  method PickAction(s: State, size: nat, ghost round: Round) returns (a: Action)
    requires Inv(round, s) && !s.main.Returned? && size == Size(round)
    requires round.workers >= 1
    ensures Enabled(round, s, a)
  {
    ghost var next := Progress(round, s);
    if
    case s.main.Sending? && s.unsent != [] && |s.jobs| < size => a := Send;
    case s.main.Sending? && s.unsent == [] => a := Close;
    case w :| 0 <= w < |s.workers| && s.workers[w].Waiting? && s.jobs != [] => a := Take(w);
    case w :| 0 <= w < |s.workers| && s.workers[w].Probing? && |s.results| < size => a := Deliver(w);
    case w :| 0 <= w < |s.workers| && s.workers[w].Waiting? && s.jobs == [] && !s.main.Sending? => a := Exit(w);
    case s.main.Collecting? && |s.collected| < size && s.results != [] => a := Collect;
    case s.main.Collecting? && |s.collected| == size => a := Return;
  }

  /** The tables a round starts from, the keys of its pods and its answers. */
  datatype Ledger = Ledger(values: Grid<bool>, rates: Grid<Option<real>>, names: seq<string>, answer: Job -> Answer)

  ghost predicate Writable(ledger: Ledger) {
    HasRows(ledger.values, ledger.names) && HasRows(ledger.rates, ledger.names)
  }

  /** The observed table is what writing the answers to these jobs, in this order, makes of the one before the round. */
  ghost predicate Recorded(observed: TruthTable, ledger: Ledger, order: seq<Job>)
    requires Writable(ledger)
    reads observed
  {
    && AreJobs(order, |ledger.names|)
    && observed.values == Record(ledger.values, ledger.names, order, Connected(ledger.answer))
    && observed.bandwidths == Record(ledger.rates, ledger.names, order, Bandwidth(ledger.answer))
  }

  /** The collector's loop body: the result of one job goes into the table. */
  method CollectOne(reachability: Reachability, pods: seq<Pod>, result: Result, ghost views: seq<PodView>,
                    ghost ledger: Ledger, ghost order: seq<Job>)
    requires Snapshot(pods, views, ledger.names) && Writable(ledger) && IsJob(result.job, |pods|)
    requires Recorded(reachability.observed, ledger, order)
    requires result.answer == ledger.answer(result.job)
    modifies reachability.observed`values, reachability.observed`bandwidths
    ensures Recorded(reachability.observed, ledger, order + [result.job])
    ensures Snapshot(pods, views, ledger.names)
  {
    assert (order + [result.job])[..|order|] == order;
    var podFrom, podTo := pods[result.job.from], pods[result.job.to];
    reachability.Observe(podFrom.PodString(), podTo.PodString(), result.answer.connected, result.answer.bandwidth);
  }

  ghost predicate InRange(s: State, n: nat) {
    && AreJobs(JobsOf(s.collected), n) && AreJobs(JobsOf(s.results), n)
    && forall w :: 0 <= w < |s.workers| && s.workers[w].Probing? ==> IsJob(s.workers[w].job, n)
  }

  method DeliverNext(net: Network, pods: seq<Pod>, setup: Setup, s: State, w: nat, ghost views: seq<PodView>,
                     ghost ledger: Ledger)
    returns (t: State)
    requires Snapshot(pods, views, ledger.names) && InRange(s, |pods|)
    requires Enabled(RoundOf(views, setup, net), s, Deliver(w))
    requires forall p, q :: p in pods && q in pods ==> q.skipProbe || |p.containers| > 0
    ensures t == Apply(RoundOf(views, setup, net), s, Deliver(w)) && Snapshot(pods, views, ledger.names)
  {
    var job := s.workers[w].job;
    var answer := RunProbe(net, pods, setup, job, views, ledger.names);
    t := s.(workers := s.workers[w := Waiting], results := s.results + [Result(job, answer)]);
  }

  method CollectNext(pods: seq<Pod>, reachability: Reachability, s: State, ghost views: seq<PodView>,
                     ghost ledger: Ledger)
    requires Snapshot(pods, views, ledger.names) && Writable(ledger) && s.results != []
    requires InRange(s, |pods|) && s.results[0].answer == ledger.answer(s.results[0].job)
    requires Recorded(reachability.observed, ledger, JobsOf(s.collected))
    modifies reachability.observed`values, reachability.observed`bandwidths
    ensures Recorded(reachability.observed, ledger, JobsOf(s.collected + [s.results[0]]))
            && Snapshot(pods, views, ledger.names)
  {
    var result := s.results[0];
    assert JobsOf(s.results)[0] == result.job;
    JobsOfAppend(s.collected, result);
    CollectOne(reachability, pods, result, views, ledger, JobsOf(s.collected));
  }

  /** One goroutine's next step: only a delivery runs a probe and only a collection touches the table. */
  method RunStep(net: Network, pods: seq<Pod>, reachability: Reachability, setup: Setup, s: State, a: Action,
                  ghost views: seq<PodView>, ghost ledger: Ledger)
    returns (t: State)
    requires Snapshot(pods, views, ledger.names) && ledger.answer == AnswerTo(views, setup, net) && Writable(ledger)
    requires Enabled(RoundOf(views, setup, net), s, a)
    requires InRange(s, |pods|) && Honest(RoundOf(views, setup, net), s.results)
    requires forall p, q :: p in pods && q in pods ==> q.skipProbe || |p.containers| > 0
    requires Recorded(reachability.observed, ledger, JobsOf(s.collected))
    modifies reachability.observed`values, reachability.observed`bandwidths
    ensures t == Apply(RoundOf(views, setup, net), s, a) && Snapshot(pods, views, ledger.names)
    ensures Recorded(reachability.observed, ledger, JobsOf(t.collected))
  {
    match a {
      case Send => t := s.(jobs := s.jobs + [s.unsent[0]], unsent := s.unsent[1..]);
      case Close => t := s.(main := Collecting);
      case Take(w) => t := s.(workers := s.workers[w := Probing(s.jobs[0])], jobs := s.jobs[1..]);
      case Deliver(w) =>
        t := DeliverNext(net, pods, setup, s, w, views, ledger);
      case Exit(w) => t := s.(workers := s.workers[w := Exited]);
      case Collect =>
        CollectNext(pods, reachability, s, views, ledger);
        t := s.(collected := s.collected + [s.results[0]], results := s.results[1..]);
      case Return => t := s.(main := Returned);
    }
  }

  /** The goroutines of a round over the given pods. */
  method RunRound(net: Network, pods: seq<Pod>, reachability: Reachability, setup: Setup,
                  ghost views: seq<PodView>, ghost ledger: Ledger)
    returns (ghost order: seq<Job>)
    requires Snapshot(pods, views, ledger.names) && ledger.answer == AnswerTo(views, setup, net) && Writable(ledger)
    requires ledger.values == reachability.observed.values && ledger.rates == reachability.observed.bandwidths
    requires forall p, q :: p in pods && q in pods ==> q.skipProbe || |p.containers| > 0
    modifies reachability.observed`values, reachability.observed`bandwidths
    ensures multiset(order) == multiset(AllJobs(|pods|))
    ensures Recorded(reachability.observed, ledger, order) && Snapshot(pods, views, ledger.names)
  {
    var size := |pods| * |pods|;
    ghost var round := RoundOf(views, setup, net);
    var s := State(Sending, AllJobs(|pods|), [], seq(NUMBER_OF_WORKERS - 1, _ => Waiting), [], []);
    assert s == Init(round);
    InitInv(round);
    CollectedAreJobs(round, s);
    while !s.main.Returned?
      invariant Inv(round, s) && InRange(s, |pods|) && Snapshot(pods, views, ledger.names)
      invariant Recorded(reachability.observed, ledger, JobsOf(s.collected))
      decreases StepsLeft(s)
    {
      var a := PickAction(s, size, round);
      StepKeepsInv(round, s, a);
      s := RunStep(net, pods, reachability, setup, s, a, views, ledger);
      CollectedAreJobs(round, s);
    }
    order := JobsOf(s.collected);
    AllCollected(round, s);
  }

  /** A round leaves the model alone. */
  method RunRoundOver(model: Model, net: Network, pods: seq<Pod>, reachability: Reachability, setup: Setup,
                      ghost views: seq<PodView>, ghost ledger: Ledger)
    returns (ghost order: seq<Job>)
    requires model.Valid()
    requires Snapshot(pods, views, ledger.names) && ledger.answer == AnswerTo(views, setup, net) && Writable(ledger)
    requires ledger.values == reachability.observed.values && ledger.rates == reachability.observed.bandwidths
    requires forall p, q :: p in pods && q in pods ==> q.skipProbe || |p.containers| > 0
    modifies reachability.observed`values, reachability.observed`bandwidths
    ensures model.Valid()
    ensures multiset(order) == multiset(AllJobs(|pods|))
    ensures Recorded(reachability.observed, ledger, order) && Snapshot(pods, views, ledger.names)
  {
    order := RunRound(net, pods, reachability, setup, views, ledger);
  }

  ghost function SetupOf(testCase: TestCase, reachTargetPod: bool, measureBandwidth: bool): Setup
    reads testCase
  {
    Setup(testCase.toPort, testCase.protocol, testCase.serviceType, reachTargetPod, measureBandwidth)
  }

  /**
   * The model's pods are as in the snapshot, each can run a command wherever it may have to, and the test case has
   * tables. Anything less and a round panics.
   */
  ghost predicate Ready(model: Model, testCase: TestCase, pods: seq<Pod>, views: seq<PodView>, names: seq<string>)
    reads model, model.namespaces, model.Arrays(), testCase, pods
  {
    && model.Valid() && FillCache(model.content).cache == Some(pods) && Snapshot(pods, views, names)
    && (forall p, q :: p in pods && q in pods ==> q.skipProbe || |p.containers| > 0)
    && testCase.reachability != null
  }

  /** Filling the cache changes no pod. */
  method FillModel(model: Model, ghost pods: seq<Pod>, ghost views: seq<PodView>, ghost names: seq<string>)
    returns (all: Slice)
    requires model.Valid() && FillCache(model.content).cache == Some(pods) && Snapshot(pods, views, names)
    requires forall p, q :: p in pods && q in pods ==> q.skipProbe || |p.containers| > 0
    modifies model`pods, model`content
    ensures model.Valid() && model.content == FillCache(old(model.content)) && Snapshot(pods, views, names)
    ensures all.Valid() && all.Contents() == pods
    ensures forall p, q :: p in pods && q in pods ==> q.skipProbe || |p.containers| > 0
  {
    assert forall p :: p in pods ==> allocated(p);
    all := model.AllPods();
  }

  /**
   * The whole round, under every interleaving of the main goroutine and the workers. It ends, and the observed table is
   * what writing every pair's answer once, in the order they happened to be collected, makes of the earlier one.
   */
  method ProbePodToPodConnectivity(net: Network, model: Model, testCase: TestCase, reachTargetPod: bool,
                                   measureBandwidth: bool,
                                   ghost pods: seq<Pod>, ghost views: seq<PodView>, ghost ledger: Ledger)
    returns (ghost order: seq<Job>)
    requires Ready(model, testCase, pods, views, ledger.names) && Writable(ledger)
    requires ledger.answer == AnswerTo(views, SetupOf(testCase, reachTargetPod, measureBandwidth), net)
    requires ledger.values == testCase.reachability.observed.values
             && ledger.rates == testCase.reachability.observed.bandwidths
    modifies model`pods, model`content, testCase.reachability.observed`values, testCase.reachability.observed`bandwidths
    ensures model.Valid() && model.content == FillCache(old(model.content)) && Snapshot(pods, views, ledger.names)
    ensures multiset(order) == multiset(AllJobs(|pods|))
    ensures Recorded(testCase.reachability.observed, ledger, order)
  {
    var reachability := testCase.reachability;
    var setup := Setup(testCase.toPort, testCase.protocol, testCase.serviceType, reachTargetPod, measureBandwidth);
    var fromPods := FillModel(model, pods, views, ledger.names);
    var toPods := model.AllPods();
    order := RunRoundOver(model, net, fromPods.Contents(), reachability, setup, views, ledger);
  }

  /** Resetting changes what the pods show, but not their keys. */
  method ResetBoard(model: Model, ghost pods: seq<Pod>) returns (ghost views: seq<PodView>)
    requires model.Valid() && FillCache(model.content).cache == Some(pods)
    modifies pods, model`pods, model`content
    ensures model.Valid() && FillCache(model.content).cache == Some(pods)
    ensures Snapshot(pods, views, old(Keys(pods))) && forall v :: v in views ==> !v.skipProbe
  {
    model.ResetAllPods();
    views := Views(pods);
    assert forall i :: 0 <= i < |pods| ==> pods[i] in pods;
  }

  /** Once the test board is reset, a round over the cached pods skips no target. */
  method ProbeAfterReset(net: Network, model: Model, testCase: TestCase, reachTargetPod: bool, measureBandwidth: bool,
                         ghost pods: seq<Pod>)
    returns (ghost order: seq<Job>, ghost views: seq<PodView>, ghost ledger: Ledger)
    requires model.Valid() && FillCache(model.content).cache == Some(pods) && testCase.reachability != null
    requires HasRows(testCase.reachability.observed.values, Keys(pods))
             && HasRows(testCase.reachability.observed.bandwidths, Keys(pods))
    requires forall p :: p in pods ==> |p.containers| > 0
    modifies pods, model`pods, model`content
    modifies testCase.reachability.observed`values, testCase.reachability.observed`bandwidths
    ensures Snapshot(pods, views, ledger.names) && forall v :: v in views ==> !v.skipProbe
    ensures ledger.answer == AnswerTo(views, SetupOf(testCase, reachTargetPod, measureBandwidth), net)
    ensures multiset(order) == multiset(AllJobs(|pods|)) && Writable(ledger)
    ensures Recorded(testCase.reachability.observed, ledger, order)
  {
    ghost var names := Keys(pods);
    views := ResetBoard(model, pods);
    var observed := testCase.reachability.observed;
    ledger := Ledger(observed.values, observed.bandwidths, names,
                     AnswerTo(views, SetupOf(testCase, reachTargetPod, measureBandwidth), net));
    order := ProbePodToPodConnectivity(net, model, testCase, reachTargetPod, measureBandwidth, pods, views, ledger);
  }
}
