// Bringing up the pods before any test runs (tests/main_test.go).
module Suite {
  import opened Text
  import opened Entities
  import opened Reachabilities
  import opened ModelSpec
  import opened Namespaces
  import opened Models
  import opened Purging
  import opened Nodes
  import opened ProbeProtocol
  import opened Probes
  import opened Pending
  import opened Verdicts
  import opened Readiness

  const NO_COUNTS: map<string, nat> := map[]

  /** The names of the pods that stay pending past the threshold, when waiting starts from nothing. */
  ghost function StaleNames(api: Api, pods: seq<Pod>): set<string> {
    set p | p in pods && SeenOf(api, NO_COUNTS, p) > POLL_TIMES_TO_DETERMINE_PENDING_POD :: p.name
  }

  lemma {:induction false} CountedNames(api: Api, counts: map<string, nat>, pods: seq<Pod>, name: string)
    requires name in CountsOver(api, counts, pods) && name !in counts
    ensures Named(pods, name)
  {
    if pods != [] {
      var front := pods[..|pods| - 1];
      if name in CountsOver(api, counts, front) {
        CountedNames(api, counts, front, name);
        var i :| 0 <= i < |front| && front[i].name == name;
        assert pods[i].name == name;
      } else {
        assert pods[|pods| - 1].name == name;
      }
    }
  }

  /** From no counters, what one pod goes through does not depend on the others or on their order. */
  lemma FreshCounts(api: Api, pods: seq<Pod>)
    requires DistinctNames(pods)
    ensures Stale(CountsOver(api, NO_COUNTS, pods)) == StaleNames(api, pods)
    ensures forall p :: p in pods ==> CountOf(CountsOver(api, NO_COUNTS, pods), p.name) == SeenOf(api, NO_COUNTS, p)
    ensures AllUp(api, NO_COUNTS, pods) <==> forall p :: p in pods ==> Waits(api, NO_COUNTS, p)
  {
    var counts := CountsOver(api, NO_COUNTS, pods);
    CountsIndependent(api, NO_COUNTS, pods);
    forall name
      ensures name in Stale(counts) <==> name in StaleNames(api, pods)
    {
      if name in Stale(counts) {
        CountedNames(api, NO_COUNTS, pods, name);
        var i :| 0 <= i < |pods| && pods[i].name == name;
        assert pods[i] in pods;
      }
    }
    AllUpFresh(api, pods);
  }

  lemma {:induction false} AllUpFresh(api: Api, pods: seq<Pod>)
    requires DistinctNames(pods)
    ensures AllUp(api, NO_COUNTS, pods) <==> forall p :: p in pods ==> Waits(api, NO_COUNTS, p)
  {
    if pods != [] {
      var front, last := pods[..|pods| - 1], pods[|pods| - 1];
      assert pods == front + [last];
      AllUpFresh(api, front);
      CountsIndependent(api, NO_COUNTS, front);
      assert !Named(front, last.name);
      assert CountOf(CountsOver(api, NO_COUNTS, front), last.name) == 0;
      SameWait(api, CountsOver(api, NO_COUNTS, front), NO_COUNTS, last);
    }
  }

  lemma SameWait(api: Api, a: map<string, nat>, b: map<string, nat>, p: Pod)
    requires CountOf(a, p.name) == CountOf(b, p.name)
    ensures Waits(api, a, p) <==> Waits(api, b, p)
  {
  }

  /** Each pod is placed by the Pending polls its own wait saw. */
  ghost predicate PlacedBySeen(api: Api, pods: seq<Pod>, before: seq<PodStatus>)
    reads pods
  {
    |before| == |pods|
    && forall i :: 0 <= i < |pods| ==>
      Placed(api, SeenOf(api, NO_COUNTS, pods[i]), pods[i], before[i].podIP, before[i].hostIP)
  }

  datatype BringUp = StartFailed | RemoveFailed | Remaining

  /** Everything is created and every wait succeeds. */
  ghost predicate Starts(api: Api, ns: string, pods: seq<Pod>, nodes: seq<string>) {
    Creates(api, NamespaceView(ns, pods), nodes) && forall p :: p in pods ==> Waits(api, NO_COUNTS, p)
  }

  ghost predicate Deletes(api: Api, ns: string, pods: seq<Pod>) {
    forall name :: name in StaleNames(api, pods) ==> api.deletesPod(ns, name)
  }

  lemma OneNamespace(ns: NamespaceView)
    ensures LastNamespace([ns], ns.name) == Some(0)
    ensures forall pods :: [ns][0 := ns.(pods := pods)] == [ns.(pods := pods)]
  {
  }

  lemma OneCreated(api: Api, ns: NamespaceView, nodes: seq<string>)
    ensures AllCreated(api, [ns], nodes) <==> Creates(api, ns, nodes)
  {
    assert [ns][0] == ns;
  }

  lemma FreshOwnCount(api: Api, pods: seq<Pod>, i: nat)
    requires DistinctNames(pods) && i < |pods|
    ensures OwnCount(api, NO_COUNTS, pods, i) == SeenOf(api, NO_COUNTS, pods[i])
  {
    var some := pods[..i + 1];
    assert some[i] == pods[i] && forall k :: 0 <= k < |some| ==> some[k] == pods[k];
    CountsIndependent(api, NO_COUNTS, some);
    assert pods[i] in some;
  }

  lemma PlacedFresh(api: Api, pods: seq<Pod>, before: seq<PodStatus>)
    requires DistinctNames(pods) && AllPlaced(api, NO_COUNTS, pods, before)
    ensures PlacedBySeen(api, pods, before)
  {
    forall i | 0 <= i < |pods|
      ensures Placed(api, SeenOf(api, NO_COUNTS, pods[i]), pods[i], before[i].podIP, before[i].hostIP)
    {
      FreshOwnCount(api, pods, i);
    }
  }

  /** With distinct names no order panics, whichever deletions fail, and the order does not matter. */
  lemma PurgedOne(nsName: string, pods: seq<Pod>, names: set<string>, held: set<string>)
    requires DistinctNames(pods)
    ensures var v, left := ModelView([NamespaceView(nsName, pods)], Some(pods)), Keep(pods, names);
            Purgeable(v, nsName, names, held) && PartedIn(v, nsName, names)
              && Purged(v, nsName, names) == ModelView([NamespaceView(nsName, left)], Some(left))
  {
    OneNamespace(NamespaceView(nsName, pods));
    DropDistinct(pods, names);
  }

  lemma RefusedNone(api: Api, nsName: string, pods: seq<Pod>)
    ensures Refused(api, nsName, StaleNames(api, pods)) == {} <==> Deletes(api, nsName, pods)
  {
    if !Deletes(api, nsName, pods) {
      var name :| name in StaleNames(api, pods) && !api.deletesPod(nsName, name);
      assert name in Refused(api, nsName, StaleNames(api, pods));
    }
  }

  /** When the two stages before the servers succeed. A wait that sees a third Pending poll makes a pod stale. */
  lemma StagesExactly(api: Api, nsName: string, pods: seq<Pod>, nodes: seq<string>)
    ensures Starts(api, nsName, pods, nodes) <==>
            |nodes| >= 2 && |pods| == |nodes| && api.createsNamespace(nsName)
            && (forall p :: p in pods ==> api.createsPod(p.namespace, p.name))
            && forall p :: p in pods ==>
                 var polls := api.polls(p.namespace, p.name);
                 WaitFrom(0, polls).result == Up
                 && (Seen(0, polls) < 2 ==> api.status(p.namespace, p.name).Some?)
    ensures Deletes(api, nsName, pods) <==>
            forall p :: p in pods && Seen(0, api.polls(p.namespace, p.name)) >= 3 ==> api.deletesPod(nsName, p.name)
  {
    forall p: Pod
      ensures Waits(api, NO_COUNTS, p) <==>
              var polls := api.polls(p.namespace, p.name);
              WaitFrom(0, polls).result == Up && (Seen(0, polls) < 2 ==> api.status(p.namespace, p.name).Some?)
    {
      WaitsExactly(api, NO_COUNTS, p);
    }
    if Deletes(api, nsName, pods) {
      forall p | p in pods && Seen(0, api.polls(p.namespace, p.name)) >= 3
        ensures api.deletesPod(nsName, p.name)
      {
        assert SeenOf(api, NO_COUNTS, p) >= 3 && p.name in StaleNames(api, pods);
      }
    }
  }

  /** A pod stays exactly if its wait saw at most two Pending polls. */
  lemma StaysExactly(api: Api, pods: seq<Pod>, p: Pod)
    requires DistinctNames(pods)
    ensures p in Keep(pods, StaleNames(api, pods)) <==> p in pods && Seen(0, api.polls(p.namespace, p.name)) <= 2
  {
    KeepMembers(pods, StaleNames(api, pods));
    if p in pods && p.name in StaleNames(api, pods) {
      var q :| q in pods && SeenOf(api, NO_COUNTS, q) > 2 && q.name == p.name;
      var i, j :| 0 <= i < |pods| && 0 <= j < |pods| && pods[i] == p && pods[j] == q;
      assert i == j;
    }
  }

  method StartAll(manager: KubeManager, model: Model, nsName: string, nodes: seq<string>, api: Api,
                  ghost pods: seq<Pod>, ghost before: seq<PodStatus>)
    returns (failed: bool)
    requires manager.pendingPods == NO_COUNTS && DistinctNames(pods) && Addressed(pods, before)
    requires model.Valid() && model.content == ModelView([NamespaceView(nsName, pods)], None)
    modifies manager`pendingPods, model`pods, model`content
    modifies pods`nodeName, pods`podIP, pods`hostIP
    ensures model.Valid() && model.NamespaceArrays() == old(model.NamespaceArrays())
    ensures model.pods == old(model.pods) || (model.pods.Some? && fresh(model.pods.value.arr))
    ensures (failed <==> !Starts(api, nsName, pods, nodes))
    ensures !failed ==> model.content == ModelView([NamespaceView(nsName, pods)], Some(pods))
    ensures !failed ==> Stale(manager.pendingPods) == StaleNames(api, pods)
    ensures !failed ==> PlacedBySeen(api, pods, before)
  {
    FlattenOne(NamespaceView(nsName, pods));
    OneCreated(api, NamespaceView(nsName, pods), nodes);
    FreshCounts(api, pods);
    failed := manager.StartPods(model, nodes, api, pods, before);
    if !failed {
      PlacedFresh(api, pods, before);
    }
  }

  method PurgeStale(manager: KubeManager, model: Model, nsName: string, api: Api, ghost pods: seq<Pod>)
    returns (failed: bool)
    requires DistinctNames(pods) && Stale(manager.pendingPods) == StaleNames(api, pods)
    requires model.Valid() && model.content == ModelView([NamespaceView(nsName, pods)], Some(pods))
    modifies manager`pendingPods, model`pods, model`content, model.namespaces, model.Arrays()
    ensures model.Valid() && (failed <==> !Deletes(api, nsName, pods))
    ensures !failed ==>
              var left := Keep(pods, StaleNames(api, pods));
              model.content == ModelView([NamespaceView(nsName, left)], Some(left))
  {
    var stale := StaleNames(api, pods);
    PurgedOne(nsName, pods, stale, Refused(api, nsName, stale));
    RefusedNone(api, nsName, pods);
    ghost var order;
    failed, order := manager.RemovePendingPodsInNamespace(model, nsName, api);
  }

  /** Dropping stale pods from the model changes no pod. */
  method DropStale(manager: KubeManager, model: Model, nsName: string, api: Api,
                   ghost pods: seq<Pod>, ghost before: seq<PodStatus>)
    returns (failed: bool)
    requires PlacedBySeen(api, pods, before) && DistinctNames(pods)
             && Stale(manager.pendingPods) == StaleNames(api, pods)
    requires model.Valid() && model.content == ModelView([NamespaceView(nsName, pods)], Some(pods))
    modifies manager`pendingPods, model`pods, model`content, model.namespaces, model.Arrays()
    ensures model.Valid() && (failed <==> !Deletes(api, nsName, pods)) && PlacedBySeen(api, pods, before)
    ensures !failed ==>
              var left := Keep(pods, StaleNames(api, pods));
              model.content == ModelView([NamespaceView(nsName, left)], Some(left))
  {
    failed := PurgeStale(manager, model, nsName, api, pods);
  }

  /**
   * Starting the pods of a one-namespace model with a fresh manager and dropping those that stay pending. What is left
   * are the pods seen pending at most twice, in order. Those seen pending less than twice carry the addresses and the
   * node the API reports; one seen pending exactly twice keeps the addresses it had and loses its node.
   */
  method BringUpPods(model: Model, nsName: string, nodes: seq<string>, api: Api,
                     ghost pods: seq<Pod>, ghost before: seq<PodStatus>)
    returns (result: BringUp)
    requires Addressed(pods, before) && DistinctNames(pods)
    requires model.Valid() && model.content == ModelView([NamespaceView(nsName, pods)], None)
    modifies model`pods, model`content, model.namespaces, model.Arrays()
    modifies pods`nodeName, pods`podIP, pods`hostIP
    ensures model.Valid()
    ensures result == if !Starts(api, nsName, pods, nodes) then StartFailed
                      else if !Deletes(api, nsName, pods) then RemoveFailed else Remaining
    ensures result == Remaining ==>
              var left := Keep(pods, StaleNames(api, pods));
              model.content == ModelView([NamespaceView(nsName, left)], Some(left))
    ensures result == Remaining ==> PlacedBySeen(api, pods, before)
  {
    var manager := new KubeManager();
    var failed := StartAll(manager, model, nsName, nodes, api, pods, before);
    if failed {
      return StartFailed;
    }
    failed := DropStale(manager, model, nsName, api, pods, before);
    result := if failed then RemoveFailed else Remaining;
  }

  // ---------- The whole setup ----------

  const TEST_PORTS: seq<int> := [80, 81]
  const TEST_PROTOCOLS: seq<string> := [TCP, UDP]

  function PodNames(n: nat): (names: seq<string>)
    ensures |names| == n
  {
    seq(n, i requires 0 <= i < n => "pod-" + Decimal(i + 1))
  }

  lemma PodNamesDistinct(n: nat)
    ensures Distinct(PodNames(n)) && forall name :: name in PodNames(n) ==> '/' !in name
  {
    forall i, j | 0 <= i < j < n
      ensures PodNames(n)[i] != PodNames(n)[j]
    {
      assert PodNames(n)[i][4..] == Decimal(i + 1) && PodNames(n)[j][4..] == Decimal(j + 1);
      if PodNames(n)[i] == PodNames(n)[j] {
        DecimalInjective(i + 1, j + 1);
      }
    }
  }

  /** Whatever nodes the API reports, pods with distinct names free of slashes have distinct table keys. */
  lemma KeysDistinct(pods: seq<Pod>)
    requires DistinctNames(pods) && forall p :: p in pods ==> '/' !in p.name
    ensures Distinct(Keys(pods))
  {
    forall i, j | 0 <= i < j < |pods|
      ensures Keys(pods)[i] != Keys(pods)[j]
    {
      var p, q := pods[i], pods[j];
      if p.PodString() == q.PodString() {
        LastPiece(p.nodeName + "/" + p.namespace, p.name, q.nodeName + "/" + q.namespace, q.name, '/');
      }
    }
  }

  /** The pods the setup makes: one for each node, named after its position. */
  ghost predicate Made(pods: seq<Pod>, nsName: string)
    reads pods`skipProbe
  {
    && DistinctNames(pods) && (forall p :: p in pods ==> '/' !in p.name && !p.skipProbe)
    && forall i :: 0 <= i < |pods| ==>
         pods[i].namespace == nsName && pods[i].name == PodNames(|pods|)[i]
         && pods[i].containers == ContainersFor(TEST_PORTS, TEST_PROTOCOLS, "", NoCommand)
  }

  lemma MadeIsDistinct(pods: seq<Pod>, nsName: string)
    requires forall i :: 0 <= i < |pods| ==>
               pods[i].namespace == nsName && pods[i].name == PodNames(|pods|)[i] && !pods[i].skipProbe
               && pods[i].containers == ContainersFor(TEST_PORTS, TEST_PROTOCOLS, "", NoCommand)
    ensures Made(pods, nsName)
  {
    PodNamesDistinct(|pods|);
  }

  method NewTestModel(nsName: string, nodes: seq<string>) returns (model: Model, ghost pods: seq<Pod>)
    ensures fresh(model) && fresh(model.namespaces) && fresh(model.Arrays()) && fresh(pods)
    ensures model.Valid() && model.content == ModelView([NamespaceView(nsName, pods)], None)
    ensures model.ports == None && model.protocols == None
    ensures |pods| == |nodes| && Made(pods, nsName) && Addressed(pods, seq(|pods|, _ => BLANK))
  {
    var names: seq<string> := [];
    for i := 0 to |nodes|
      invariant names == PodNames(i)
    {
      names := names + ["pod-" + Decimal(i + 1)];
    }
    model := new Model([nsName], names, TEST_PORTS, TEST_PROTOCOLS);
    pods := model.content.namespaces[0].pods;
    assert BuiltNamespace(model.content.namespaces[0], nsName, names, TEST_PORTS, TEST_PROTOCOLS);
    forall i | 0 <= i < |pods|
      ensures Built(pods[i], nsName, names[i], ContainersFor(TEST_PORTS, TEST_PROTOCOLS, "", NoCommand))
    {
    }
    MadeIsDistinct(pods, nsName);
  }

  /** The servers to wait for: there are none if no pod is left. */
  ghost function Servers(left: seq<Pod>): set<Case> {
    if left == [] then {} else AllCases(TEST_PORTS, TEST_PROTOCOLS)
  }

  lemma TestPortsOnce()
    ensures Dedup(TEST_PORTS, 0) == TEST_PORTS && Dedup(TEST_PROTOCOLS, "") == TEST_PROTOCOLS
  {
    assert TEST_PORTS[..1] == [80] && [80][..0] == [] && TEST_PROTOCOLS[..1] == [TCP] && [TCP][..0] == [];
    assert Dedup([80], 0) == [80] && Dedup([TCP], "") == [TCP];
  }

  lemma ServersOf(left: seq<Pod>, ports: seq<int>, protocols: seq<string>)
    requires forall p :: p in left ==> p.containers == ContainersFor(TEST_PORTS, TEST_PROTOCOLS, "", NoCommand)
    requires Extracted(ports, protocols, ContainersOf(left))
    ensures AllCases(ports, protocols) == Servers(left)
  {
    ExtractorUndoesBuilder(left, TEST_PORTS, TEST_PROTOCOLS, "", NoCommand);
    TestPortsOnce();
  }

  /** The four servers of the test suite. */
  lemma FourServers(left: seq<Pod>)
    requires left != []
    ensures Servers(left) == {Case(80, "TCP"), Case(80, "UDP"), Case(81, "TCP"), Case(81, "UDP")}
    ensures |Servers(left)| == 4
  {
    var four := {Case(80, "TCP"), Case(80, "UDP"), Case(81, "TCP"), Case(81, "UDP")};
    forall c
      ensures c in Servers(left) <==> c in four
    {
      InAllCases(TEST_PORTS, TEST_PROTOCOLS, c);
    }
    assert Servers(left) == four;
  }

  /** The pods of the setup: named by their numbers, each serving two protocols on two ports. */
  lemma MadeExactly(pods: seq<Pod>, nsName: string, i: nat)
    requires Made(pods, nsName) && i < |pods|
    ensures pods[i].namespace == nsName && pods[i].name == "pod-" + Decimal(i + 1) && !pods[i].skipProbe
    ensures pods[i].containers == [Container(80, "TCP", "", []), Container(80, "UDP", "", []),
                                   Container(81, "TCP", "", []), Container(81, "UDP", "", [])]
  {
    ContainerAt(TEST_PORTS, TEST_PROTOCOLS, "", NoCommand, 0, 0);
    ContainerAt(TEST_PORTS, TEST_PROTOCOLS, "", NoCommand, 0, 1);
    ContainerAt(TEST_PORTS, TEST_PROTOCOLS, "", NoCommand, 1, 0);
    ContainerAt(TEST_PORTS, TEST_PROTOCOLS, "", NoCommand, 1, 1);
  }

  ghost function WorldOf(pods: seq<Pod>, nets: Nets): World
    reads pods
  {
    World(Views(pods), Keys(pods), nets)
  }

  /** The pods left over can run probes and have keys of their own. */
  ghost predicate Usable(left: seq<Pod>) {
    DistinctNames(left)
    && forall p :: p in left ==> '/' !in p.name && |p.containers| > 0
                                 && p.containers == ContainersFor(TEST_PORTS, TEST_PROTOCOLS, "", NoCommand)
  }

  lemma LeftOver(api: Api, pods: seq<Pod>, nsName: string)
    requires Made(pods, nsName)
    ensures Usable(Keep(pods, StaleNames(api, pods))) && forall p :: p in Keep(pods, StaleNames(api, pods)) ==>
            p in pods
  {
    KeepMembers(pods, StaleNames(api, pods));
    assert ContainersFor(TEST_PORTS, TEST_PROTOCOLS, "", NoCommand)
           == ContainersFor(TEST_PORTS[..1], TEST_PROTOCOLS, "", NoCommand)
             + ContainersForPort(81, TEST_PROTOCOLS, "", NoCommand);
  }

  lemma UsableIsProbeable(model: Model, left: seq<Pod>, nsName: string, nets: Nets)
    requires model.Valid() && model.content == ModelView([NamespaceView(nsName, left)], Some(left)) && Usable(left)
    ensures Probeable(model, left, WorldOf(left, nets))
  {
    KeysDistinct(left);
  }

  /** Waiting for the servers of the pods that are left. */
  method WaitForServers(nets: Nets, model: Model, ghost left: seq<Pod>, ghost nsName: string)
    returns (error: Option<nat>, ghost w: World)
    requires model.Valid() && model.content == ModelView([NamespaceView(nsName, left)], Some(left)) && Usable(left)
    requires model.ports == None && model.protocols == None
    modifies model`pods, model`content, model`ports, model`protocols
    ensures model.Valid() && FillCache(model.content).cache == Some(left)
    ensures Snapshot(left, w.views, w.names) && w.nets == nets
    ensures error == if Failing(w, Servers(left)) == {} then None else Some(|Failing(w, Servers(left))|)
  {
    w := WorldOf(left, nets);
    UsableIsProbeable(model, left, nsName, nets);
    FlattenOne(NamespaceView(nsName, left));
    ghost var rounds, cases;
    error, rounds, cases := WaitForHTTPServers(nets, model, w, left);
    ServersOf(left, model.ports.value, model.protocols.value);
  }

  datatype SetUpResult = NodesNotListed | PodsNotStarted | PodsNotRemoved | ServersNotReady(count: nat) | ServersReady

  ghost function ServersOutcome(w: World, left: seq<Pod>): SetUpResult {
    if Failing(w, Servers(left)) == {} then ServersReady else ServersNotReady(|Failing(w, Servers(left))|)
  }

  /** Servers that answer from the tenth try on pass the setup; all four count if they would from an eleventh on. */
  lemma LateServers(views: seq<PodView>, names: seq<string>, left: seq<Pod>, i: nat)
    requires |views| == |left| && i < |views| && !views[i].skipProbe
    ensures ServersOutcome(World(views, names, AnswersFrom(9)), left) == ServersReady
    ensures ServersOutcome(World(views, names, AnswersFrom(10)), left) == ServersNotReady(4)
  {
    FourServers(left);
    LastTry(views, names, Servers(left), i);
  }

  /** Nobody has to answer exactly when no pod is there to be asked. */
  lemma PassesUnasked(views: seq<PodView>, names: seq<string>, left: seq<Pod>)
    requires |views| == |left|
    ensures (forall nets :: ServersOutcome(World(views, names, nets), left) == ServersReady) <==>
            forall i :: 0 <= i < |views| ==> views[i].skipProbe
  {
    if i :| 0 <= i < |views| && !views[i].skipProbe {
      var nets: Nets := (_, _) => ((_, _) => Reply(false, "", None));
      var w, c := World(views, names, nets), Case(80, TCP);
      InAllCases(TEST_PORTS, TEST_PROTOCOLS, c);
      forall attempt: nat
        ensures !Passes(w, c, attempt)
      {
        assert !Respond(views, CaseSetup(c), nets(c, attempt), Job(i, i)).connected;
      }
      assert c in Failing(w, Servers(left));
    } else {
      forall nets
        ensures ServersOutcome(World(views, names, nets), left) == ServersReady
      {
        var w := World(views, names, nets);
        forall c
          ensures !FailsEveryTry(w, c)
        {
          assert Passes(w, c, 0);
        }
        assert Failing(w, Servers(left)) == {};
      }
    }
  }

  /** The last stage changes no pod. */
  method WaitForRest(nets: Nets, model: Model, nsName: string, ghost api: Api, ghost pods: seq<Pod>,
                     ghost before: seq<PodStatus>)
    returns (outcome: SetUpResult, ghost w: World)
    requires Made(pods, nsName) && PlacedBySeen(api, pods, before)
    requires var left := Keep(pods, StaleNames(api, pods));
             model.Valid() && model.content == ModelView([NamespaceView(nsName, left)], Some(left))
    requires model.ports == None && model.protocols == None
    modifies model`pods, model`content, model`ports, model`protocols
    ensures var left := Keep(pods, StaleNames(api, pods));
            model.Valid() && FillCache(model.content).cache == Some(left)
            && Snapshot(left, w.views, w.names) && w.nets == nets && outcome == ServersOutcome(w, left)
    ensures PlacedBySeen(api, pods, before)
  {
    LeftOver(api, pods, nsName);
    var error;
    error, w := WaitForServers(nets, model, Keep(pods, StaleNames(api, pods)), nsName);
    outcome := if error == None then ServersReady else ServersNotReady(error.value);
  }

  const BLANK := PodStatus("", "", "")

  /** The outcome once the nodes are listed: the stage that fails, or how many servers never answered. */
  ghost function SetUpOutcome(api: Api, nsName: string, nodes: seq<string>, pods: seq<Pod>, w: World): SetUpResult {
    if !Starts(api, nsName, pods, nodes) then PodsNotStarted
    else if !Deletes(api, nsName, pods) then PodsNotRemoved
    else ServersOutcome(w, Keep(pods, StaleNames(api, pods)))
  }

  /** Which outcome the setup has; the count is of servers that pass none of the attempts 0 to 9. */
  lemma OutcomeExactly(api: Api, nsName: string, nodes: seq<string>, pods: seq<Pod>, w: World)
    ensures var outcome, unready := SetUpOutcome(api, nsName, nodes, pods, w),
                set c | c in Servers(Keep(pods, StaleNames(api, pods)))
                        && (forall attempt: nat :: attempt < 10 ==> !Passes(w, c, attempt)) :: c;
            && (outcome == PodsNotStarted <==> !Starts(api, nsName, pods, nodes))
            && (outcome == PodsNotRemoved <==> Starts(api, nsName, pods, nodes) && !Deletes(api, nsName, pods))
            && (outcome == ServersReady <==>
                Starts(api, nsName, pods, nodes) && Deletes(api, nsName, pods) && unready == {})
            && (outcome.ServersNotReady? <==>
                Starts(api, nsName, pods, nodes) && Deletes(api, nsName, pods) && unready != {})
            && (outcome.ServersNotReady? ==> outcome.count == |unready|)
  {
    var servers := Servers(Keep(pods, StaleNames(api, pods)));
    TenTries(w, servers);
    var unready := set c | c in servers && (forall attempt: nat :: attempt < 10 ==> !Passes(w, c, attempt)) :: c;
    assert Failing(w, servers) == unready;
  }

  /** The pods that are left, unchanged since they were placed, as `w` shows them. */
  ghost predicate LeftAs(api: Api, nets: Nets, pods: seq<Pod>, left: seq<Pod>, w: World)
    reads pods, left
  {
    && left == Keep(pods, StaleNames(api, pods)) && Snapshot(left, w.views, w.names) && w.nets == nets
    && PlacedBySeen(api, pods, seq(|pods|, _ => BLANK))
  }

  /** What the setup leaves for the tests. */
  ghost predicate Prepared(api: Api, nets: Nets, model: Model, pods: seq<Pod>, left: seq<Pod>, w: World)
    reads model, model.namespaces, model.Arrays(), pods, left
  {
    model.Valid() && FillCache(model.content).cache == Some(left) && LeftAs(api, nets, pods, left, w)
  }

  /** From a new model: the stages after one another, each only if the one before succeeded. */
  method RunStages(nsName: string, nodes: seq<string>, api: Api, nets: Nets, model: Model, ghost pods: seq<Pod>)
    returns (outcome: SetUpResult, ghost left: seq<Pod>, ghost w: World)
    requires model.Valid() && model.content == ModelView([NamespaceView(nsName, pods)], None)
    requires model.ports == None && model.protocols == None
    requires Made(pods, nsName) && Addressed(pods, seq(|pods|, _ => BLANK))
    modifies model`pods, model`content, model`ports, model`protocols, model.namespaces, model.Arrays()
    modifies pods`nodeName, pods`podIP, pods`hostIP
    ensures model.Valid() && outcome == SetUpOutcome(api, nsName, nodes, pods, w)
    ensures outcome.ServersReady? || outcome.ServersNotReady? ==> Prepared(api, nets, model, pods, left, w)
  {
    left, w := Keep(pods, StaleNames(api, pods)), World([], [], nets);
    var stage := BringUpPods(model, nsName, nodes, api, pods, seq(|pods|, _ => BLANK));
    match stage {
      case StartFailed => outcome := PodsNotStarted;
      case RemoveFailed => outcome := PodsNotRemoved;
      case Remaining => outcome, w := WaitForRest(nets, model, nsName, api, pods, seq(|pods|, _ => BLANK));
    }
  }

  method SetUpOn(nsName: string, nodes: seq<string>, api: Api, nets: Nets)
    returns (outcome: SetUpResult, model: Model, ghost pods: seq<Pod>, ghost left: seq<Pod>, ghost w: World)
    ensures fresh(model) && model.Valid() && |pods| == |nodes| && Made(pods, nsName)
    ensures outcome == SetUpOutcome(api, nsName, nodes, pods, w)
    ensures outcome.ServersReady? || outcome.ServersNotReady? ==> Prepared(api, nets, model, pods, left, w)
  {
    model, pods := NewTestModel(nsName, nodes);
    outcome, left, w := RunStages(nsName, nodes, api, nets, model, pods);
  }

  /**
   * The setup of the test suite, from nothing, against any cluster: whether each of its stages fails, which pods are
   * left and with which addresses, and how many servers never answered.
   */
  method SetUp(nsName: string, listed: Option<seq<ClusterNode>>, api: Api, nets: Nets)
    returns (outcome: SetUpResult, model: Model?, ghost pods: seq<Pod>, ghost left: seq<Pod>, ghost w: World)
    ensures listed == None ==> outcome == NodesNotListed
    ensures listed.Some? ==>
              var nodes := ReadyNodes(listed.value);
              && model != null && fresh(model) && model.Valid() && |pods| == |nodes| && Made(pods, nsName)
              && outcome == SetUpOutcome(api, nsName, nodes, pods, w)
              && (outcome.ServersReady? || outcome.ServersNotReady? ==> Prepared(api, nets, model, pods, left, w))
  {
    model, pods, left, w := null, [], [], World([], [], nets);
    var nodes := GetReadyNodes(listed);
    if nodes == None {
      return NodesNotListed, model, pods, left, w;
    }
    outcome, model, pods, left, w := SetUpOn(nsName, nodes.value, api, nets);
  }

  /** What a test over the pods that are left returns, in so many rounds. */
  ghost predicate Judged(rounds: seq<Network>, default: bool, rules: seq<Rule>, setup: Setup, ignoreLoopback: bool,
                         w: World, wrong: nat, run: nat)
    requires |rounds| == 2
  {
    && Splittable(w.names)
    && run == (if RuleFailureCount(default, rules, w.views, w.names, setup, rounds[0], ignoreLoopback) == 0 then 1
               else 2)
    && wrong == RuleFailureCount(default, rules, w.views, w.names, setup, rounds[run - 1], ignoreLoopback)
  }

  lemma LeftIsProbeable(api: Api, nets: Nets, nsName: string, pods: seq<Pod>, left: seq<Pod>, w: World)
    requires Made(pods, nsName) && LeftAs(api, nets, pods, left, w)
    ensures Distinct(w.names) && forall p, q :: p in left && q in left ==> q.skipProbe || |p.containers| > 0
  {
    LeftOver(api, pods, nsName);
    KeysDistinct(left);
    assert Keys(left) == w.names;
  }

  method AssessLeft(rounds: seq<Network>, model: Model, default: bool, rules: seq<Rule>, setup: Setup,
                    ignoreLoopback: bool, ghost api: Api, ghost nets: Nets, ghost nsName: string,
                    ghost pods: seq<Pod>, ghost left: seq<Pod>, ghost w: World)
    returns (wrong: nat, run: nat)
    requires |rounds| == 2 && Made(pods, nsName) && Prepared(api, nets, model, pods, left, w)
    modifies model`pods, model`content
    ensures Made(pods, nsName) && LeftAs(api, nets, pods, left, w)
    ensures Judged(rounds, default, rules, setup, ignoreLoopback, w, wrong, run)
  {
    LeftIsProbeable(api, nets, nsName, pods, left, w);
    wrong, run := Assess(rounds, model, default, rules, setup, ignoreLoopback, left, w.views, w.names);
  }

  /** A test right after the setup, which only runs if the setup succeeded. */
  method SetUpAndAssess(nsName: string, listed: Option<seq<ClusterNode>>, api: Api, nets: Nets, rounds: seq<Network>,
                        default: bool, rules: seq<Rule>, setup: Setup, ignoreLoopback: bool)
    returns (outcome: SetUpResult, wrong: nat, run: nat, ghost pods: seq<Pod>, ghost left: seq<Pod>, ghost w: World)
    requires |rounds| == 2
    ensures outcome == if listed == None then NodesNotListed
                       else SetUpOutcome(api, nsName, ReadyNodes(listed.value), pods, w)
    ensures listed.Some? ==> |pods| == |ReadyNodes(listed.value)| && Made(pods, nsName)
    ensures outcome.ServersReady? || outcome.ServersNotReady? ==> LeftAs(api, nets, pods, left, w)
    ensures outcome == ServersReady ==> Judged(rounds, default, rules, setup, ignoreLoopback, w, wrong, run)
  {
    var model;
    outcome, model, pods, left, w := SetUp(nsName, listed, api, nets);
    wrong, run := 0, 0;
    if outcome == ServersReady {
      wrong, run := AssessLeft(rounds, model, default, rules, setup, ignoreLoopback, api, nets, nsName, pods, left, w);
    }
  }

  // ---------- Two runs of the setup ----------

  /**
   * A pod that stays after being seen pending exactly twice is probed by pod address at the empty address, and its key
   * names no node.
   */
  lemma ProbedNowhere(api: Api, pods: seq<Pod>, i: nat, from: PodView, c: Case)
    requires i < |pods| && PlacedBySeen(api, pods, seq(|pods|, _ => BLANK))
    requires api.polls(pods[i].namespace, pods[i].name) == [StillPending, StillPending, Running]
    ensures pods[i].name !in StaleNames(api, [pods[i]])
    ensures RequestFor(from, pods[i].View(), CaseSetup(c)).addr == "" && pods[i].nodeName == ""
  {
    PendingTwice();
    assert SeenOf(api, NO_COUNTS, pods[i]) == 2;
  }

  function NeverScheduled(): Api {
    Api(_ => true, (_, _) => true, (_, _) => [StillPending, StillPending, StillPending], (_, _) => None, (_, _) => true)
  }

  lemma AllStale(nsName: string, pods: seq<Pod>, nodes: seq<string>)
    requires |pods| == |nodes| > 1
    ensures Starts(NeverScheduled(), nsName, pods, nodes) && Deletes(NeverScheduled(), nsName, pods)
    ensures Keep(pods, StaleNames(NeverScheduled(), pods)) == []
  {
    var api := NeverScheduled();
    PendingForever();
    forall p | p in pods
      ensures SeenOf(api, NO_COUNTS, p) == 3 && Waits(api, NO_COUNTS, p)
    {
    }
    KeepNone(pods, StaleNames(api, pods));
  }

  /** No pod is ever scheduled, every pod is dropped, and the setup succeeds whatever the network. */
  method SucceedsWithoutPods(nsName: string, items: seq<ClusterNode>, nets: Nets) returns (outcome: SetUpResult)
    requires |ReadyNodes(items)| > 1
    ensures outcome == ServersReady
  {
    var model;
    ghost var pods, left, w;
    outcome, model, pods, left, w := SetUp(nsName, Some(items), NeverScheduled(), nets);
    AllStale(nsName, pods, ReadyNodes(items));
    assert Failing(w, Servers([])) == {};
  }
}
