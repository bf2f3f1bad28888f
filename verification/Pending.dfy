// Waiting for pods, and giving up on those that stay pending (pkg/entities/kubernetes/exec.go, pkg/matrix/manager.go).
module Pending {
  import opened Text
  import opened Entities
  import opened ModelSpec
  import opened Purging
  import opened Namespaces
  import opened Models

  const POLL_TIMES_TO_DETERMINE_PENDING_POD := 2

  /** What one poll of a pod sees: the API fails or the pod is in some phase. */
  datatype Poll = ApiError | Running | RanAndFailed | RanAndSucceeded | StillPending | OtherPhase

  /** How a wait ends; it is up when the pod runs and also when the wait gives up on a pending pod. */
  datatype WaitResult = Up | Failed | TimedOut

  /** The result of a wait and how many polls it made. */
  datatype Wait = Wait(result: WaitResult, polls: nat)

  /** A wait that starts from a count and meets the given polls; after the last of them it times out. */
  function WaitFrom(count: nat, polls: seq<Poll>): (w: Wait)
    ensures w.polls <= |polls|
    decreases |polls|
  {
    if polls == [] then Wait(TimedOut, 0)
    else match polls[0]
         case Running => Wait(Up, 1)
         case StillPending =>
           if count + 1 > POLL_TIMES_TO_DETERMINE_PENDING_POD then Wait(Up, 1)
              else Later(WaitFrom(count + 1, polls[1..]))
         case OtherPhase => Later(WaitFrom(count, polls[1..]))
         case _ => Wait(Failed, 1)
  }

  function Later(w: Wait): Wait {
    w.(polls := w.polls + 1)
  }

  function PendingPolls(polls: seq<Poll>): nat {
    if polls == [] then 0 else (if polls[0] == StillPending then 1 else 0) + PendingPolls(polls[1..])
  }

  /** The Pending polls a wait sees before it ends. */
  function Seen(count: nat, polls: seq<Poll>): nat {
    PendingPolls(polls[..WaitFrom(count, polls).polls])
  }

  function After(count: nat, poll: Poll): nat {
    if poll == StillPending then count + 1 else count
  }

  /** Whether a poll ends the wait, the counter including it. */
  predicate Ends(count: nat, poll: Poll) {
    || poll in {Running, ApiError, RanAndFailed, RanAndSucceeded}
    || (poll == StillPending && count > POLL_TIMES_TO_DETERMINE_PENDING_POD)
  }

  lemma WaitStep(count: nat, polls: seq<Poll>)
    requires polls != []
    ensures var next, w := After(count, polls[0]), WaitFrom(count, polls);
            if Ends(next, polls[0]) then w == Wait(if polls[0] in {Running, StillPending} then Up else Failed, 1)
            else w == Later(WaitFrom(next, polls[1..]))
  {
  }

  lemma WaitOne(count: nat, polls: seq<Poll>)
    requires polls != []
    ensures var next, w := After(count, polls[0]), WaitFrom(count, polls);
            if Ends(next, polls[0]) then
              && w.polls == 1 && w.result == (if polls[0] in {Running, StillPending} then Up else Failed)
              && Seen(count, polls) == next - count
            else
              w == Later(WaitFrom(next, polls[1..])) && Seen(count, polls) == next - count + Seen(next, polls[1..])
  {
    WaitStep(count, polls);
    PendingPrefix(polls, WaitFrom(count, polls).polls);
    assert PendingPolls(polls[1..][..0]) == 0;
  }

  /** What a wait from the start comes to, in terms of the polls it has not made yet. */
  ghost predicate StillWaiting(start: nat, count: nat, polls: seq<Poll>, made: nat) {
    && made <= |polls| && start <= count
    && Seen(start, polls) == count - start + Seen(count, polls[made..])
    && WaitFrom(start, polls) == var w := WaitFrom(count, polls[made..]); Wait(w.result, made + w.polls)
  }

  lemma WaitNext(start: nat, count: nat, polls: seq<Poll>, made: nat)
    requires made < |polls| && StillWaiting(start, count, polls, made)
    ensures var next, poll := After(count, polls[made]), polls[made];
            if Ends(next, poll) then
              && WaitFrom(start, polls) == Wait(if poll in {Running, StillPending} then Up else Failed, made + 1)
              && Seen(start, polls) == next - start
            else
              StillWaiting(start, next, polls, made + 1)
  {
    WaitOne(count, polls[made..]);
    assert polls[made..][1..] == polls[made + 1..];
  }

  lemma PendingPrefix(polls: seq<Poll>, n: nat)
    requires 1 <= n <= |polls|
    ensures PendingPolls(polls[..n]) == (if polls[0] == StillPending then 1 else 0) + PendingPolls(polls[1..][..n - 1])
  {
    assert polls[..n][1..] == polls[1..][..n - 1];
  }

  /**
   * A wait from a count sees at most three Pending polls less the count, but always tolerates seeing one. It is up
   * with a count past the threshold exactly when it gave up; otherwise it is up because the pod was seen running.
   */
  lemma {:induction false} WaitBounds(count: nat, polls: seq<Poll>)
    ensures var w, seen := WaitFrom(count, polls), Seen(count, polls);
            && seen <= (if count < 2 then 3 - count else 1)
            && (w.result == Up ==> w.polls > 0 && (polls[w.polls - 1] == Running
                                                   || (polls[w.polls - 1] == StillPending && count + seen > 2)))
            && (w.result == Failed ==> w.polls > 0 && polls[w.polls - 1] in {ApiError, RanAndFailed, RanAndSucceeded})
            && (w.result == TimedOut ==> w.polls == |polls|)
            && (forall k :: 0 <= k < w.polls - 1 ==> polls[k] == StillPending || polls[k] == OtherPhase)
            && (count <= 2 && count + seen > 2 ==> w.result == Up && polls[w.polls - 1] == StillPending)
    decreases |polls|
  {
    if polls != [] {
      WaitOne(count, polls);
      var next := After(count, polls[0]);
      if !Ends(next, polls[0]) {
        WaitBounds(next, polls[1..]);
        assert forall k :: 1 <= k < |polls| ==> polls[k] == polls[1..][k - 1];
      }
    }
  }

  /** Pending twice and then running: up, but counted to the threshold. */
  lemma PendingTwice()
    ensures var polls := [StillPending, StillPending, Running];
            WaitFrom(0, polls) == Wait(Up, 3) && Seen(0, polls) == 2
  {
    var polls := [StillPending, StillPending, Running];
    assert polls[1..] == [StillPending, Running] && polls[1..][1..] == [Running] && [Running][1..] == [];
    WaitOne(0, polls);
    WaitOne(1, polls[1..]);
    WaitOne(2, [Running]);
  }

  /** Never scheduled: given up at the third poll, as if it were up. */
  lemma PendingForever()
    ensures var polls := [StillPending, StillPending, StillPending];
            WaitFrom(0, polls) == Wait(Up, 3) && Seen(0, polls) == 3
  {
    var polls := [StillPending, StillPending, StillPending];
    assert polls[1..] == [StillPending, StillPending] && polls[1..][1..] == [StillPending];
    WaitOne(0, polls);
    WaitOne(1, polls[1..]);
    WaitOne(2, [StillPending]);
  }

  function CountOf(counts: map<string, nat>, name: string): nat {
    if name in counts then counts[name] else 0
  }

  /** A counter appears in the map with the pod's first Pending poll. */
  function Bump(counts: map<string, nat>, name: string, seen: nat): map<string, nat> {
    if seen == 0 then counts else counts[name := CountOf(counts, name) + seen]
  }

  datatype PodStatus = PodStatus(podIP: string, hostIP: string, nodeName: string)

  /** How the cluster's API answers; any of it may fail. */
  datatype Api = Api(
    createsNamespace: string -> bool,
    createsPod: (string, string) -> bool,
    polls: (string, string) -> seq<Poll>,
    status: (string, string) -> Option<PodStatus>,
    deletesPod: (string, string) -> bool)

  /** The Pending polls the wait for a pod sees, from the counter its name has by then. */
  ghost function SeenOf(api: Api, counts: map<string, nat>, p: Pod): nat {
    Seen(CountOf(counts, p.name), api.polls(p.namespace, p.name))
  }

  ghost function CountsAfter(api: Api, counts: map<string, nat>, p: Pod): map<string, nat> {
    Bump(counts, p.name, SeenOf(api, counts, p))
  }

  /** Whether waiting for the pod succeeds. */
  ghost predicate Waits(api: Api, counts: map<string, nat>, p: Pod) {
    && WaitFrom(CountOf(counts, p.name), api.polls(p.namespace, p.name)).result == Up
    && (CountOf(CountsAfter(api, counts, p), p.name) < POLL_TIMES_TO_DETERMINE_PENDING_POD ==>
          api.status(p.namespace, p.name).Some?)
  }

  /**
   * What a successful wait leaves on the pod. Below the threshold it takes its addresses and node from the API; from
   * the threshold on it keeps its addresses and its node becomes that of the local pod specification, which has none.
   */
  ghost predicate Placed(api: Api, count: nat, p: Pod, podIP: string, hostIP: string)
    reads p
  {
    if count < POLL_TIMES_TO_DETERMINE_PENDING_POD then
      api.status(p.namespace, p.name) == Some(PodStatus(p.podIP, p.hostIP, p.nodeName))
    else
      p.podIP == podIP && p.hostIP == hostIP && p.nodeName == ""
  }

  /** Field by field: below two counts the API's addresses and node, else the addresses from before and no node. */
  lemma PlacedExactly(api: Api, count: nat, p: Pod, podIP: string, hostIP: string)
    ensures count < 2 ==>
              var status := api.status(p.namespace, p.name);
              Placed(api, count, p, podIP, hostIP) <==>
              status.Some? && p.podIP == status.value.podIP && p.hostIP == status.value.hostIP
              && p.nodeName == status.value.nodeName
    ensures count >= 2 ==>
              (Placed(api, count, p, podIP, hostIP) <==> p.podIP == podIP && p.hostIP == hostIP && p.nodeName == "")
  {
    if count < 2 {
      var status := api.status(p.namespace, p.name);
      assert status.Some? ==>
          status.value == PodStatus(status.value.podIP, status.value.hostIP, status.value.nodeName);
    }
  }

  /** A pod is up if its wait ends well and, below two counts, the API then knows its addresses. */
  lemma WaitsExactly(api: Api, counts: map<string, nat>, p: Pod)
    ensures var count, polls := CountOf(counts, p.name), api.polls(p.namespace, p.name);
            Waits(api, counts, p) <==>
            WaitFrom(count, polls).result == Up
            && (count + Seen(count, polls) < 2 ==> api.status(p.namespace, p.name).Some?)
  {
  }

  ghost predicate Addressed(pods: seq<Pod>, before: seq<PodStatus>)
    reads pods`podIP, pods`hostIP
  {
    |before| == |pods| && forall i :: 0 <= i < |pods| ==>
      pods[i].podIP == before[i].podIP && pods[i].hostIP == before[i].hostIP
  }

  /** The counters after waiting for pods one after the other. */
  ghost function CountsOver(api: Api, counts: map<string, nat>, pods: seq<Pod>): map<string, nat> {
    if pods == [] then counts
    else CountsAfter(api, CountsOver(api, counts, pods[..|pods| - 1]), pods[|pods| - 1])
  }

  /** The counter of the pod at one position as it stands right after its own wait. */
  ghost function OwnCount(api: Api, counts: map<string, nat>, pods: seq<Pod>, i: nat): nat
    requires i < |pods|
  {
    CountOf(CountsOver(api, counts, pods[..i + 1]), pods[i].name)
  }

  /**
   * The first pods are placed by the counters after their own waits, which namesakes before them have raised. The
   * others still have the addresses in `before`. A pod listed twice would be placed twice.
   */
  ghost predicate PlacedUpTo(api: Api, counts: map<string, nat>, pods: seq<Pod>, before: seq<PodStatus>, n: nat)
    reads pods
  {
    |before| == |pods| && n <= |pods|
    && (Distinct(pods) ==>
          (forall i :: 0 <= i < n ==>
           Placed(api, OwnCount(api, counts, pods, i), pods[i], before[i].podIP, before[i].hostIP))
          && forall i :: n <= i < |pods| ==> pods[i].podIP == before[i].podIP && pods[i].hostIP == before[i].hostIP)
  }

  ghost predicate AllPlaced(api: Api, counts: map<string, nat>, pods: seq<Pod>, before: seq<PodStatus>)
    reads pods
  {
    PlacedUpTo(api, counts, pods, before, |pods|)
  }

  /**
   * A pod whose name was already counted twice, by namesakes in other namespaces, gets no address even if it runs at
   * the first poll.
   */
  lemma InheritedCounter(api: Api, counts: map<string, nat>, pods: seq<Pod>, before: seq<PodStatus>, i: nat)
    requires AllPlaced(api, counts, pods, before) && Distinct(pods) && i < |pods|
    requires CountOf(CountsOver(api, counts, pods[..i]), pods[i].name) >= 2
    requires var polls := api.polls(pods[i].namespace, pods[i].name); polls != [] && polls[0] == Running
    ensures pods[i].podIP == before[i].podIP && pods[i].hostIP == before[i].hostIP && pods[i].nodeName == ""
  {
    assert pods[..i + 1][..i] == pods[..i];
    var count := CountOf(CountsOver(api, counts, pods[..i]), pods[i].name);
    WaitOne(count, api.polls(pods[i].namespace, pods[i].name));
    assert SeenOf(api, CountsOver(api, counts, pods[..i]), pods[i]) == 0;
    assert OwnCount(api, counts, pods, i) == count;
  }

  /** Whether every one of these waits succeeds. */
  ghost predicate AllUp(api: Api, counts: map<string, nat>, pods: seq<Pod>) {
    pods == [] || (AllUp(api, counts, pods[..|pods| - 1])
                   && Waits(api, CountsOver(api, counts, pods[..|pods| - 1]), pods[|pods| - 1]))
  }

  lemma {:induction false} AllUpPrefix(api: Api, counts: map<string, nat>, pods: seq<Pod>, n: nat)
    requires n <= |pods| && AllUp(api, counts, pods)
    ensures AllUp(api, counts, pods[..n])
    decreases |pods|
  {
    if n < |pods| {
      AllUpPrefix(api, counts, pods[..|pods| - 1], n);
      assert pods[..|pods| - 1][..n] == pods[..n];
    } else {
      assert pods[..n] == pods;
    }
  }

  lemma FlattenCovers(views: seq<NamespaceView>, i: nat)
    requires i < |views|
    ensures forall k :: 0 <= k < |views[i].pods| ==> views[i].pods[k] in Flatten(views)
  {
    FlattenSplit(views, i);
    var some := views[i].pods;
    assert forall k :: 0 <= k < |some| ==> some[k] == Flatten(views)[|Flatten(views[..i])| + k];
  }

  ghost predicate Shows(namespaces: seq<Namespace>, views: seq<NamespaceView>)
    reads namespaces, set ns | ns in namespaces :: ns.pods.arr
  {
    |views| == |namespaces|
    && forall i :: 0 <= i < |namespaces| ==>
         namespaces[i].pods.Valid() && views[i] == NamespaceView(namespaces[i].name, namespaces[i].pods.Contents())
  }

  ghost predicate CreatesPods(api: Api, pods: seq<Pod>) {
    forall p :: p in pods ==> api.createsPod(p.namespace, p.name)
  }

  /** Whether the namespace has one pod for each of at least two nodes and all of it can be created. */
  ghost predicate Creates(api: Api, ns: NamespaceView, nodes: seq<string>) {
    && |ns.pods| == |nodes| > 1 && api.createsNamespace(ns.name) && CreatesPods(api, ns.pods)
  }

  lemma CreatesExactly(api: Api, ns: NamespaceView, nodes: seq<string>)
    ensures Creates(api, ns, nodes) <==>
            |nodes| >= 2 && |ns.pods| == |nodes| && api.createsNamespace(ns.name)
            && forall i :: 0 <= i < |ns.pods| ==> api.createsPod(ns.pods[i].namespace, ns.pods[i].name)
  {
    assert forall i :: 0 <= i < |ns.pods| ==> ns.pods[i] in ns.pods;
  }

  ghost predicate AllCreated(api: Api, namespaces: seq<NamespaceView>, nodes: seq<string>) {
    forall i :: 0 <= i < |namespaces| ==> Creates(api, namespaces[i], nodes)
  }

  /** Pods with distinct names have counters of their own, each growing by exactly the Pending polls of its pod. */
  lemma {:induction false} CountsIndependent(api: Api, counts: map<string, nat>, pods: seq<Pod>)
    requires DistinctNames(pods)
    ensures forall p :: p in pods ==>
              CountOf(CountsOver(api, counts, pods), p.name) == CountOf(counts, p.name) + SeenOf(api, counts, p)
    ensures forall name :: !Named(pods, name) ==> CountOf(CountsOver(api, counts, pods), name) == CountOf(counts, name)
  {
    if pods != [] {
      var front, last := pods[..|pods| - 1], pods[|pods| - 1];
      CountsIndependent(api, counts, front);
      assert forall i :: 0 <= i < |front| ==> front[i] == pods[i];
      assert !Named(front, last.name);
      forall name | !Named(pods, name)
        ensures !Named(front, name) && name != last.name
      {
        assert pods[|pods| - 1] == last;
      }
      forall p | p in pods
        ensures CountOf(CountsOver(api, counts, pods), p.name) == CountOf(counts, p.name) + SeenOf(api, counts, p)
      {
        if p != last {
          assert p in front;
        }
      }
    }
  }

  // ---------- Removing stale pods ----------

  /** The names counted past the threshold. */
  function Stale(counts: map<string, nat>): set<string> {
    set name | name in counts && counts[name] > POLL_TIMES_TO_DETERMINE_PENDING_POD
  }

  /** The names whose pods the API does not delete. */
  function Refused(api: Api, ns: string, names: set<string>): set<string> {
    set name | name in names && !api.deletesPod(ns, name)
  }

  /** Between two counters, with some of them left to visit: the stale ones among the others are gone. */
  ghost predicate Removing(counts: map<string, nat>, now: map<string, nat>, left: set<string>, order: seq<string>,
                           refused: set<string>)
  {
    && left <= counts.Keys && OrderOf(order, Stale(counts) - left) && now == counts - (Stale(counts) - left)
    && (Stale(counts) - left) * refused == {}
  }

  /** The removal has stopped at the last of the names, whose counter is kept. */
  ghost predicate Stopped(counts: map<string, nat>, now: map<string, nat>, order: seq<string>, refused: set<string>) {
    && Distinct(order) && order != [] && NamesIn(order) <= Stale(counts) && order[|order| - 1] in refused
    && now == counts - (NamesIn(order) - {order[|order| - 1]})
  }

  lemma OrderBack(order: seq<string>, names: set<string>, name: string)
    requires OrderOf(order, names) && name !in names
    ensures OrderOf(order + [name], names + {name}) && NamesIn(order + [name]) == names + {name}
  {
  }

  lemma RemovingNext(counts: map<string, nat>, now: map<string, nat>, left: set<string>, order: seq<string>,
                     refused: set<string>, name: string)
    requires Removing(counts, now, left, order, refused) && name in left
    ensures name in now && name !in order && (name in Stale(now) <==> name in Stale(counts))
    ensures Stale(counts) * (left - {name}) == Stale(counts) * left - {name}
    ensures name !in Stale(counts) ==> Removing(counts, now, left - {name}, order, refused)
    ensures name in Stale(counts) && name !in refused ==>
              Removing(counts, now - {name}, left - {name}, order + [name], refused)
    ensures name in Stale(counts) && name in refused ==> Stopped(counts, now, order + [name], refused)
  {
    var removed := Stale(counts) - left;
    if name in Stale(counts) {
      OrderBack(order, removed, name);
      assert Stale(counts) - (left - {name}) == removed + {name} && removed + {name} - {name} == removed;
      assert counts - removed - {name} == counts - (removed + {name});
    } else {
      assert Stale(counts) - (left - {name}) == removed;
    }
  }

  /** Where the loop ends. */
  lemma Removed(before: ModelView, ns: string, counts: map<string, nat>, now: map<string, nat>, order: seq<string>,
                refused: set<string>, failed: bool)
    requires refused <= Stale(counts)
    requires if failed then Stopped(counts, now, order, refused) else Removing(counts, now, {}, order, refused)
    ensures Distinct(order) && (failed <==> refused != {})
    ensures !failed ==> NamesIn(order) == Stale(counts) && now == counts - Stale(counts)
    ensures PartedIn(before, ns, NamesIn(order)) ==> PurgedBy(before, ns, order) == Purged(before, ns, NamesIn(order))
    ensures forall name :: name in order ==> name in counts && counts[name] >= 3
    ensures !failed ==> forall name :: name in now ==> now[name] < 3
  {
    assert Stale(counts) - {} == Stale(counts);
    forall name | name in order
      ensures name in counts && counts[name] >= 3
    {
      assert name in NamesIn(order) && name in Stale(counts);
    }
    if PartedIn(before, ns, NamesIn(order)) {
      PurgedInAnyOrder(before, ns, order, NamesIn(order));
    }
  }

  class KubeManager {
    var pendingPods: map<string, nat>

    constructor ()
      ensures pendingPods == map[]
    {
      pendingPods := map[];
    }

    /** One poll: whether the wait is over, and whether with an error. */
    method PodRunning(podName: string, poll: Poll) returns (done: bool, failed: bool)
      modifies this`pendingPods
      ensures pendingPods == Bump(old(pendingPods), podName, if poll == StillPending then 1 else 0)
      ensures pendingPods == if poll != StillPending then old(pendingPods)
                             else old(pendingPods)[podName := if podName in old(pendingPods)
                                                              then old(pendingPods)[podName] + 1 else 1]
      ensures failed <==> poll in {ApiError, RanAndFailed, RanAndSucceeded}
      ensures done <==> poll == Running
                        || (poll == StillPending && CountOf(pendingPods, podName) > POLL_TIMES_TO_DETERMINE_PENDING_POD)
    {
      done, failed := false, false;
      match poll {
        case Running => done := true;
        case StillPending =>
          pendingPods := pendingPods[podName := CountOf(pendingPods, podName) + 1];
          done := pendingPods[podName] > POLL_TIMES_TO_DETERMINE_PENDING_POD;
        case OtherPhase =>
        case _ => failed := true;
      }
    }

    method WaitForPodRunningInNamespace(podName: string, polls: seq<Poll>) returns (result: WaitResult, made: nat)
      modifies this`pendingPods
      ensures Wait(result, made) == WaitFrom(CountOf(old(pendingPods), podName), polls)
      ensures pendingPods == Bump(old(pendingPods), podName, Seen(CountOf(old(pendingPods), podName), polls))
    {
      ghost var start, count := CountOf(pendingPods, podName), CountOf(pendingPods, podName);
      made := 0;
      while made < |polls|
        invariant made <= |polls| && start <= count && StillWaiting(start, count, polls, made)
        invariant pendingPods == Bump(old(pendingPods), podName, count - start)
      {
        WaitNext(start, count, polls, made);
        var done, failed := PodRunning(podName, polls[made]);
        count := After(count, polls[made]);
        made := made + 1;
        if failed {
          return Failed, made;
        }
        if done {
          return Up, made;
        }
      }
      result := TimedOut;
    }

    method WaitAndSetIPs(pod: Pod, api: Api) returns (failed: bool)
      modifies this`pendingPods, pod`podIP, pod`hostIP, pod`nodeName
      ensures pendingPods == CountsAfter(api, old(pendingPods), pod)
      ensures failed <==> !Waits(api, old(pendingPods), pod)
      ensures !failed ==> Placed(api, CountOf(pendingPods, pod.name), pod, old(pod.podIP), old(pod.hostIP))
      ensures !failed && CountOf(pendingPods, pod.name) < 2 ==>
                var status := api.status(pod.namespace, pod.name);
                && status.Some? && pod.podIP == status.value.podIP && pod.hostIP == status.value.hostIP
                && pod.nodeName == status.value.nodeName
      ensures !failed && CountOf(pendingPods, pod.name) >= 2 ==>
                pod.podIP == old(pod.podIP) && pod.hostIP == old(pod.hostIP) && pod.nodeName == ""
    {
      var result, made := WaitForPodRunningInNamespace(pod.name, api.polls(pod.namespace, pod.name));
      if result != Up {
        return true;
      }
      var nodeName := "";
      if CountOf(pendingPods, pod.name) < POLL_TIMES_TO_DETERMINE_PENDING_POD {
        var status := api.status(pod.namespace, pod.name);
        if status == None {
          return true;
        }
        pod.podIP := status.value.podIP;
        pod.hostIP := status.value.hostIP;
        nodeName := status.value.nodeName;
      }
      pod.nodeName := nodeName;
      failed := false;
    }

    method StartPodsInNamespace(ns: Namespace, nodes: seq<string>, api: Api) returns (failed: bool)
      requires ns.pods.Valid() && ns.pods.len <= |nodes|
      modifies ns.pods.Contents()`nodeName
      ensures failed <==> !(api.createsNamespace(ns.name) && CreatesPods(api, ns.pods.Contents()))
      ensures !failed && Distinct(ns.pods.Contents()) ==>
                forall i :: 0 <= i < ns.pods.len ==> ns.pods.Contents()[i].nodeName == nodes[i]
    {
      if !api.createsNamespace(ns.name) {
        return true;
      }
      var pods := ns.pods.Contents();
      for i := 0 to |pods|
        invariant ns.pods.Contents() == pods
        invariant forall k :: 0 <= k < i ==> api.createsPod(pods[k].namespace, pods[k].name)
        invariant Distinct(pods) ==> forall k :: 0 <= k < i ==> pods[k].nodeName == nodes[k]
      {
        pods[i].nodeName := nodes[i];
        if !api.createsPod(pods[i].namespace, pods[i].name) {
          return true;
        }
      }
      failed := false;
    }

    method StartIfSized(ns: Namespace, nodes: seq<string>, api: Api) returns (failed: bool)
      requires ns.pods.Valid()
      modifies ns.pods.Contents()`nodeName
      ensures failed <==> !Creates(api, NamespaceView(ns.name, ns.pods.Contents()), nodes)
    {
      if ns.pods.len != |nodes| || |nodes| <= 1 {
        return true;
      }
      failed := StartPodsInNamespace(ns, nodes, api);
    }

    /** The creating loop of StartPods. */
    method StartEach(namespaces: seq<Namespace>, nodes: seq<string>, api: Api, ghost views: seq<NamespaceView>)
      returns (failed: bool)
      requires Shows(namespaces, views)
      modifies Flatten(views)`nodeName
      ensures failed <==> !AllCreated(api, views, nodes)
    {
      for i := 0 to |namespaces|
        invariant forall k :: 0 <= k < i ==> Creates(api, views[k], nodes)
        invariant Shows(namespaces, views)
      {
        FlattenCovers(views, i);
        failed := StartIfSized(namespaces[i], nodes, api);
        if failed {
          return true;
        }
      }
      failed := false;
    }

    /** The body of StartPods' waiting loop. */
    method WaitForNext(pods: seq<Pod>, i: nat, api: Api, ghost before: seq<PodStatus>, ghost counts: map<string, nat>)
      returns (failed: bool)
      requires i < |pods| && PlacedUpTo(api, counts, pods, before, i)
               && pendingPods == CountsOver(api, counts, pods[..i])
      modifies this`pendingPods, pods`podIP, pods`hostIP, pods`nodeName
      ensures failed <==> !Waits(api, old(pendingPods), pods[i])
      ensures pendingPods == CountsOver(api, counts, pods[..i + 1])
      ensures !failed ==> PlacedUpTo(api, counts, pods, before, i + 1)
    {
      assert pods[..i + 1][..i] == pods[..i];
      failed := WaitAndSetIPs(pods[i], api);
    }

    /** The waiting loop of StartPods. */
    method WaitForAll(pods: seq<Pod>, api: Api, ghost before: seq<PodStatus>) returns (failed: bool)
      requires Addressed(pods, before)
      modifies this`pendingPods, pods`podIP, pods`hostIP, pods`nodeName
      ensures failed <==> !AllUp(api, old(pendingPods), pods)
      ensures !failed ==> pendingPods == CountsOver(api, old(pendingPods), pods)
      ensures !failed ==> AllPlaced(api, old(pendingPods), pods, before)
    {
      ghost var counts := pendingPods;
      for i := 0 to |pods|
        invariant AllUp(api, counts, pods[..i]) && pendingPods == CountsOver(api, counts, pods[..i])
        invariant PlacedUpTo(api, counts, pods, before, i)
      {
        assert pods[..i + 1][..i] == pods[..i];
        failed := WaitForNext(pods, i, api, before, counts);
        if failed {
          if AllUp(api, counts, pods) {
            AllUpPrefix(api, counts, pods, i + 1);
          }
          return true;
        }
      }
      assert pods[..|pods|] == pods;
      failed := false;
    }

    /** Starting changes no slice of the model. */
    method StartNamespaces(model: Model, nodes: seq<string>, api: Api) returns (failed: bool)
      requires model.Valid()
      modifies Flatten(model.content.namespaces)`nodeName
      ensures model.Valid() && model.NamespaceArrays() == old(model.NamespaceArrays())
      ensures failed <==> !AllCreated(api, model.content.namespaces, nodes)
    {
      failed := StartEach(model.namespaces, nodes, api, model.content.namespaces);
    }

    method WaitForModel(model: Model, pods: seq<Pod>, api: Api, ghost before: seq<PodStatus>) returns (failed: bool)
      requires model.Valid() && Addressed(pods, before)
      modifies this`pendingPods, pods`podIP, pods`hostIP, pods`nodeName
      ensures model.Valid() && model.NamespaceArrays() == old(model.NamespaceArrays())
      ensures failed <==> !AllUp(api, old(pendingPods), pods)
      ensures !failed ==> pendingPods == CountsOver(api, old(pendingPods), pods)
      ensures !failed ==> AllPlaced(api, old(pendingPods), pods, before)
    {
      failed := WaitForAll(pods, api, before);
    }

    method WaitForCached(model: Model, api: Api, ghost pods: seq<Pod>, ghost before: seq<PodStatus>)
      returns (failed: bool)
      requires model.Valid() && FillCache(model.content).cache == Some(pods) && Addressed(pods, before)
      modifies this`pendingPods, model`pods, model`content, pods`podIP, pods`hostIP, pods`nodeName
      ensures model.Valid() && model.content == FillCache(old(model.content))
      ensures model.NamespaceArrays() == old(model.NamespaceArrays())
      ensures model.pods == old(model.pods) || (model.pods.Some? && fresh(model.pods.value.arr))
      ensures failed <==> !AllUp(api, old(pendingPods), pods)
      ensures !failed ==> pendingPods == CountsOver(api, old(pendingPods), pods)
      ensures !failed ==> AllPlaced(api, old(pendingPods), pods, before)
    {
      assert forall p :: p in pods ==> allocated(p);
      var all := model.AllPods();
      var list := all.Contents();
      failed := WaitForModel(model, list, api, before);
    }

    /**
     * Creates every namespace and pod, then waits for the pods one after the other. `pods` are those AllPods lists and
     * `before` the addresses they have.
     */
    method StartPods(model: Model, nodes: seq<string>, api: Api, ghost pods: seq<Pod>, ghost before: seq<PodStatus>)
      returns (failed: bool)
      requires model.Valid() && FillCache(model.content).cache == Some(pods) && Addressed(pods, before)
      modifies this`pendingPods, model`pods, model`content
      modifies Flatten(model.content.namespaces)`nodeName, pods`nodeName, pods`podIP, pods`hostIP
      ensures model.Valid() && model.NamespaceArrays() == old(model.NamespaceArrays())
      ensures model.pods == old(model.pods) || (model.pods.Some? && fresh(model.pods.value.arr))
      ensures failed <==> !AllCreated(api, old(model.content).namespaces, nodes) || !AllUp(api, old(pendingPods), pods)
      ensures !failed ==>
              model.content == FillCache(old(model.content)) && pendingPods == CountsOver(api, old(pendingPods), pods)
      ensures !failed ==> AllPlaced(api, old(pendingPods), pods, before)
    {
      failed := StartNamespaces(model, nodes, api);
      if failed {
        return true;
      }
      failed := WaitForCached(model, api, pods, before);
    }

    /**
     * The loop body over the counters: a stale pod leaves the model whether or not the API then deletes it, and loses
     * its counter only if it does. `order` are the names removed so far and `names` those that are still to go.
     */
    method RemoveIfStale(model: Model, name: string, nsName: string, api: Api, ghost before: ModelView,
                         ghost order: seq<string>, ghost names: set<string>, ghost held: set<string>)
      returns (failed: bool, ghost next: seq<string>)
      requires model.Valid() && model.content == PurgedBy(before, nsName, order) && name in pendingPods
               && name !in order
      requires Purgeable(model.content, nsName, names, held)
               && (name in Stale(pendingPods) ==> name in names && (name in held <==> !api.deletesPod(nsName, name)))
      modifies this`pendingPods, model`pods, model`content, model.namespaces, model.Arrays()
      ensures model.Valid() && model.content == PurgedBy(before, nsName, next)
      ensures model.Arrays() == old(model.Arrays()) && model.namespaces == old(model.namespaces)
      ensures next == if name in Stale(old(pendingPods)) then order + [name] else order
      ensures failed <==> name in Stale(old(pendingPods)) && !api.deletesPod(nsName, name)
      ensures pendingPods == old(pendingPods) - if failed || name !in Stale(old(pendingPods)) then {} else {name}
      ensures !failed && name in Stale(old(pendingPods)) ==> Purgeable(model.content, nsName, names - {name}, held)
    {
      failed, next := false, order;
      assert pendingPods - {} == pendingPods;
      if pendingPods[name] > POLL_TIMES_TO_DETERMINE_PENDING_POD {
        next := order + [name];
        PurgeOneMore(before, nsName, order, names, held, name);
        var missing := model.RemovePod(name, nsName);
        if !api.deletesPod(nsName, name) {
          return true, next;
        }
        pendingPods := pendingPods - {name};
      }
    }

    /** The same step as part of the loop, with `left` the counters that are still to visit. */
    method RemoveNext(model: Model, name: string, nsName: string, api: Api, ghost before: ModelView,
                      ghost counts: map<string, nat>, ghost left: set<string>, ghost order: seq<string>)
      returns (failed: bool, ghost next: seq<string>)
      requires model.Valid() && model.content == PurgedBy(before, nsName, order) && name in left
      requires var refused := Refused(api, nsName, Stale(counts));
               Removing(counts, pendingPods, left, order, refused)
               && Purgeable(model.content, nsName, Stale(counts) * left, refused)
      modifies this`pendingPods, model`pods, model`content, model.namespaces, model.Arrays()
      ensures model.Valid() && model.content == PurgedBy(before, nsName, next)
      ensures model.Arrays() == old(model.Arrays()) && model.namespaces == old(model.namespaces)
      ensures var refused, rest := Refused(api, nsName, Stale(counts)), left - {name};
              if failed then Stopped(counts, pendingPods, next, refused)
              else Removing(counts, pendingPods, rest, next, refused)
                   && Purgeable(model.content, nsName, Stale(counts) * rest, refused)
    {
      ghost var refused := Refused(api, nsName, Stale(counts));
      RemovingNext(counts, pendingPods, left, order, refused, name);
      assert pendingPods - {} == pendingPods;
      failed, next := RemoveIfStale(model, name, nsName, api, before, order, Stale(counts) * left, refused);
    }

    /**
     * Takes every pod counted past the threshold out of the model and the cluster, in whatever order Go visits the
     * counters. It stops at the first pod the API cannot delete, which has then left the model but keeps its counter.
     */
    method RemovePendingPodsInNamespace(model: Model, nsName: string, api: Api)
      returns (failed: bool, ghost order: seq<string>)
      requires model.Valid()
      requires Purgeable(model.content, nsName, Stale(pendingPods), Refused(api, nsName, Stale(pendingPods)))
      modifies this`pendingPods, model`pods, model`content, model.namespaces, model.Arrays()
      ensures model.Valid() && model.content == PurgedBy(old(model.content), nsName, order)
      ensures Distinct(order) && (PartedIn(old(model.content), nsName, NamesIn(order)) ==>
                                    model.content == Purged(old(model.content), nsName, NamesIn(order)))
      ensures failed <==> Refused(api, nsName, Stale(old(pendingPods))) != {}
      ensures if failed then
                Stopped(old(pendingPods), pendingPods, order, Refused(api, nsName, Stale(old(pendingPods))))
              else NamesIn(order) == Stale(old(pendingPods)) && pendingPods == old(pendingPods) - NamesIn(order)
      ensures forall name :: name in order ==> name in old(pendingPods) && old(pendingPods)[name] >= 3
      ensures !failed ==> forall name :: name in pendingPods ==> pendingPods[name] < 3
      ensures failed ==>
                && order != [] && !api.deletesPod(nsName, order[|order| - 1])
                && pendingPods == old(pendingPods) - (NamesIn(order) - {order[|order| - 1]})
    {
      ghost var before, counts := model.content, pendingPods;
      failed, order := false, [];
      PurgeNothing(before, nsName);
      var left := pendingPods.Keys;
      assert Stale(counts) - left == {} && Stale(counts) * left == Stale(counts) && counts - {} == counts;
      while left != {} && !failed
        invariant model.Valid() && model.content == PurgedBy(before, nsName, order)
        invariant model.Arrays() == old(model.Arrays()) && model.namespaces == old(model.namespaces)
        invariant var refused := Refused(api, nsName, Stale(counts));
                  if failed then Stopped(counts, pendingPods, order, refused)
                  else Removing(counts, pendingPods, left, order, refused)
                       && Purgeable(model.content, nsName, Stale(counts) * left, refused)
      {
        var name :| name in left;
        failed, order := RemoveNext(model, name, nsName, api, before, counts, left, order);
        left := left - {name};
      }
      Removed(before, nsName, counts, pendingPods, order, Refused(api, nsName, Stale(counts)), failed);
    }
  }
}
