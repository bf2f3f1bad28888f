// Namespaces: building their pods and reading ports and protocols back (pkg/entities/namespace.go,
// pkg/matrix/model.go).
module Namespaces {
  import opened Text
  import opened Entities
  import opened Slices

  class Namespace {
    const name: string
    var pods: Slice

    constructor (name: string, pods: Slice)
      ensures this.name == name && this.pods == pods
    {
      this.name, this.pods := name, pods;
    }
  }

  // The serve command a container starts with, by port and protocol.
  type Serve = (int, string) -> seq<string>

  function ContainersForPort(port: int, protocols: seq<string>, image: string, serve: Serve): seq<Container> {
    seq(|protocols|, j requires 0 <= j < |protocols| => Container(port, protocols[j], image, serve(port, protocols[j])))
  }

  /** One container for every port and protocol, ports first. */
  function ContainersFor(ports: seq<int>, protocols: seq<string>, image: string, serve: Serve): seq<Container> {
    if ports == [] then []
    else ContainersFor(ports[..|ports| - 1], protocols, image, serve)
         + ContainersForPort(ports[|ports| - 1], protocols, image, serve)
  }

  /** The container for the i-th port and the j-th protocol is the (i * |protocols| + j)-th. */
  lemma {:induction false} ContainerAt(ports: seq<int>, protocols: seq<string>, image: string, serve: Serve, i: nat,
                                       j: nat)
    requires i < |ports| && j < |protocols|
    ensures |ContainersFor(ports, protocols, image, serve)| == |ports| * |protocols|
    ensures i * |protocols| + j < |ContainersFor(ports, protocols, image, serve)|
    ensures ContainersFor(ports, protocols, image, serve)[i * |protocols| + j]
            == Container(ports[i], protocols[j], image, serve(ports[i], protocols[j]))
  {
    var front := ports[..|ports| - 1];
    ContainerCount(front, protocols, image, serve);
    ContainerCount(ports, protocols, image, serve);
    if i < |front| {
      ContainerAt(front, protocols, image, serve, i, j);
    }
  }

  lemma OneMorePort(n: nat, m: nat)
    ensures (n + 1) * m == n * m + m
  {
  }

  lemma {:induction false} ContainerCount(ports: seq<int>, protocols: seq<string>, image: string, serve: Serve)
    ensures |ContainersFor(ports, protocols, image, serve)| == |ports| * |protocols|
  {
    if ports != [] {
      ContainerCount(ports[..|ports| - 1], protocols, image, serve);
      OneMorePort(|ports| - 1, |protocols|);
    }
  }

  ghost predicate Built(pod: Pod, namespaceName: string, name: string, containers: seq<Container>)
    reads pod
  {
    && pod.View() == PodView(namespaceName, name, "", [], false, "", "", "", "", 0)
    && !pod.hostNetwork && pod.containers == containers
  }

  method NewNamespaceWithPods(namespaceName: string, podNames: seq<string>, ports: seq<int>, protocols: seq<string>,
                              image: string, serve: Serve)
    returns (ns: Namespace)
    ensures fresh(ns) && fresh(ns.pods.arr) && ns.name == namespaceName && ns.pods.Valid()
    ensures |ns.pods.Contents()| == |podNames|
    ensures forall i :: 0 <= i < |podNames| ==>
              fresh(ns.pods.Contents()[i])
              && Built(ns.pods.Contents()[i], namespaceName, podNames[i], ContainersFor(ports, protocols, image, serve))
  {
    var pods := Empty();
    for k := 0 to |podNames|
      invariant fresh(pods.arr) && pods.Valid() && pods.len == k
      invariant forall i :: 0 <= i < k ==>
                  fresh(pods.Contents()[i])
                  && Built(pods.Contents()[i], namespaceName, podNames[i],
                           ContainersFor(ports, protocols, image, serve))
    {
      var containers: seq<Container> := [];
      for i := 0 to |ports|
        invariant containers == ContainersFor(ports[..i], protocols, image, serve)
      {
        assert ports[..i + 1][..i] == ports[..i];
        for j := 0 to |protocols|
          invariant containers == ContainersFor(ports[..i], protocols, image, serve)
                                  + ContainersForPort(ports[i], protocols[..j], image, serve)
        {
          containers := containers + [Container(ports[i], protocols[j], image, serve(ports[i], protocols[j]))];
        }
        assert protocols[..|protocols|] == protocols;
      }
      assert ports[..|ports|] == ports;
      var pod := new Pod(namespaceName, podNames[k], containers);
      pods := Append(pods, pod);
    }
    ns := new Namespace(namespaceName, pods);
  }

  // ---------- Ports and protocols ----------

  /** First occurrences, in order, leaving out one value. */
  function Dedup<T(==,!new)>(xs: seq<T>, skip: T): (r: seq<T>)
    ensures forall x :: x in r <==> x in xs && x != skip
  {
    if xs == [] then []
    else
      var front, last := xs[..|xs| - 1], xs[|xs| - 1];
      assert xs == front + [last];
      Dedup(front, skip) + if last == skip || last in front then [] else [last]
  }

  /** Each value once, and what comes later in the list changes nothing about what is listed so far. */
  lemma {:induction false} DedupOnce<T(!new)>(xs: seq<T>, skip: T, n: nat)
    requires n <= |xs|
    ensures Distinct(Dedup(xs, skip)) && Dedup(xs[..n], skip) <= Dedup(xs, skip)
  {
    if n == |xs| {
      assert xs[..n] == xs;
      if xs != [] {
        DedupOnce(xs[..|xs| - 1], skip, |xs| - 1);
      }
    } else {
      var front := xs[..|xs| - 1];
      DedupOnce(front, skip, n);
      assert front[..n] == xs[..n];
    }
  }

  function ContainersOf(pods: seq<Pod>): seq<Container> {
    if pods == [] then [] else ContainersOf(pods[..|pods| - 1]) + pods[|pods| - 1].containers
  }

  function PortList(cs: seq<Container>): seq<int> {
    seq(|cs|, i requires 0 <= i < |cs| => cs[i].port)
  }

  function ProtocolList(cs: seq<Container>): seq<string> {
    seq(|cs|, i requires 0 <= i < |cs| => cs[i].protocol)
  }

  lemma ListsAppend(a: seq<Container>, b: seq<Container>)
    ensures PortList(a + b) == PortList(a) + PortList(b)
    ensures ProtocolList(a + b) == ProtocolList(a) + ProtocolList(b)
  {
  }

  /** What extractPortProtocols holds after some containers: their first ports and protocols. */
  ghost predicate Extracted(ports: seq<int>, protocols: seq<string>, seen: seq<Container>) {
    ports == Dedup(PortList(seen), 0) && protocols == Dedup(ProtocolList(seen), "")
  }

  /** What the innermost body of extractPortProtocols does to its two results. */
  method ExtractOne(c: Container, ports: seq<int>, protocols: seq<string>, ghost before: seq<Container>)
    returns (morePorts: seq<int>, moreProtocols: seq<string>)
    requires Extracted(ports, protocols, before)
    ensures Extracted(morePorts, moreProtocols, before + [c])
  {
    ListsAppend(before, [c]);
    assert PortList([c]) == [c.port] && ProtocolList([c]) == [c.protocol];
    morePorts, moreProtocols := ports, protocols;
    if c.port != 0 && c.port !in ports {
      morePorts := ports + [c.port];
    }
    if c.protocol != "" && c.protocol !in protocols {
      moreProtocols := protocols + [c.protocol];
    }
  }

  lemma PrefixNext<T>(before: seq<T>, s: seq<T>, i: nat)
    requires i < |s|
    ensures before + s[..i] + [s[i]] == before + s[..i + 1]
  {
  }

  /** The inner loop, over the containers of one pod. */
  method ExtractFromPod(cs: seq<Container>, ports0: seq<int>, protocols0: seq<string>, ghost before: seq<Container>)
    returns (ports: seq<int>, protocols: seq<string>)
    requires Extracted(ports0, protocols0, before)
    ensures Extracted(ports, protocols, before + cs)
  {
    ports, protocols := ports0, protocols0;
    assert before + cs[..0] == before;
    for j := 0 to |cs|
      invariant Extracted(ports, protocols, before + cs[..j])
    {
      ports, protocols := ExtractOne(cs[j], ports, protocols, before + cs[..j]);
      PrefixNext(before, cs, j);
    }
    assert cs[..|cs|] == cs;
  }

  /** The middle loop, over the pods of one namespace. */
  method ExtractFromPods(pods: seq<Pod>, ports0: seq<int>, protocols0: seq<string>, ghost before: seq<Container>)
    returns (ports: seq<int>, protocols: seq<string>)
    requires Extracted(ports0, protocols0, before)
    ensures Extracted(ports, protocols, before + ContainersOf(pods))
  {
    ports, protocols := ports0, protocols0;
    assert before + ContainersOf(pods[..0]) == before;
    for i := 0 to |pods|
      invariant Extracted(ports, protocols, before + ContainersOf(pods[..i]))
    {
      ports, protocols := ExtractFromPod(pods[i].containers, ports, protocols, before + ContainersOf(pods[..i]));
      ContainersOfNext(before, pods, i);
    }
    assert pods[..|pods|] == pods;
  }

  lemma ContainersOfNext(before: seq<Container>, pods: seq<Pod>, i: nat)
    requires i < |pods|
    ensures before + ContainersOf(pods[..i]) + pods[i].containers == before + ContainersOf(pods[..i + 1])
  {
    assert pods[..i + 1][..i] == pods[..i];
    assert before + ContainersOf(pods[..i]) + pods[i].containers
           == before + (ContainersOf(pods[..i]) + pods[i].containers);
  }

  lemma DedupGrow<T(!new)>(a: seq<T>, x: T, skip: T)
    ensures Dedup(a + [x], skip) == Dedup(a, skip) + if x == skip || x in a then [] else [x]
  {
    assert (a + [x])[..|a|] == a;
  }

  lemma {:induction false} DedupRepeats<T(!new)>(a: seq<T>, b: seq<T>, skip: T)
    requires forall x :: x in b ==> x in a
    ensures Dedup(a + b, skip) == Dedup(a, skip)
  {
    if b == [] {
      assert a + b == a;
    } else {
      var front, last := b[..|b| - 1], b[|b| - 1];
      assert b == front + [last];
      assert a + b == (a + front) + [last];
      DedupGrow(a + front, last, skip);
      DedupRepeats(a, front, skip);
    }
  }

  /** Each port is listed once per protocol, which leaves the first occurrences alone. */
  lemma {:induction false} PortsOfOnePod(ports: seq<int>, protocols: seq<string>, image: string, serve: Serve)
    requires protocols != []
    ensures var list := PortList(ContainersFor(ports, protocols, image, serve));
            Dedup(list, 0) == Dedup(ports, 0) && forall p :: p in list <==> p in ports
  {
    if ports != [] {
      var front, last := ports[..|ports| - 1], ports[|ports| - 1];
      assert ports == front + [last];
      PortsOfOnePod(front, protocols, image, serve);
      var row := PortList(ContainersForPort(last, protocols, image, serve));
      var list := PortList(ContainersFor(front, protocols, image, serve));
      ListsAppend(ContainersFor(front, protocols, image, serve), ContainersForPort(last, protocols, image, serve));
      assert row == [last] + row[1..];
      assert list + row == (list + [last]) + row[1..];
      DedupRepeats(list + [last], row[1..], 0);
      DedupGrow(list, last, 0);
      DedupGrow(front, last, 0);
    }
  }

  lemma {:induction false} ProtocolsOfOnePod(ports: seq<int>, protocols: seq<string>, image: string, serve: Serve)
    requires ports != []
    ensures var list := ProtocolList(ContainersFor(ports, protocols, image, serve));
            Dedup(list, "") == Dedup(protocols, "") && forall p :: p in list <==> p in protocols
  {
    var front, last := ports[..|ports| - 1], ports[|ports| - 1];
    var row := ProtocolList(ContainersForPort(last, protocols, image, serve));
    ListsAppend(ContainersFor(front, protocols, image, serve), ContainersForPort(last, protocols, image, serve));
    assert row == protocols;
    if front == [] {
      assert ProtocolList(ContainersFor(front, protocols, image, serve)) + row == protocols;
    } else {
      ProtocolsOfOnePod(front, protocols, image, serve);
      DedupRepeats(ProtocolList(ContainersFor(front, protocols, image, serve)), row, "");
    }
  }

  /**
   * Builder and extractor agree, for all inputs: if every pod was built from the same ports and protocols, what is
   * extracted is their first occurrences without zero ports and empty protocols, or nothing if there is no container.
   */
  lemma {:induction false} ExtractorUndoesBuilder(pods: seq<Pod>, ports: seq<int>, protocols: seq<string>,
                                                    image: string, serve: Serve)
    requires forall i :: 0 <= i < |pods| ==> pods[i].containers == ContainersFor(ports, protocols, image, serve)
    ensures Dedup(PortList(ContainersOf(pods)), 0) == if pods == [] || protocols == [] then [] else Dedup(ports, 0)
    ensures Dedup(ProtocolList(ContainersOf(pods)), "") == if pods == [] || ports == [] then []
            else Dedup(protocols, "")
  {
    if pods != [] {
      var front, last := pods[..|pods| - 1], pods[|pods| - 1].containers;
      ExtractorUndoesBuilder(front, ports, protocols, image, serve);
      ListsAppend(ContainersOf(front), last);
      NoContainers(ports, protocols, image, serve);
      if protocols != [] {
        PortsOfOnePod(ports, protocols, image, serve);
      }
      if ports != [] {
        ProtocolsOfOnePod(ports, protocols, image, serve);
      }
      if front == [] {
        assert ContainersOf(front) == [];
        assert ContainersOf(pods) == last;
      } else {
        SameContainers(front, last);
        DedupRepeats(PortList(ContainersOf(front)), PortList(last), 0);
        DedupRepeats(ProtocolList(ContainersOf(front)), ProtocolList(last), "");
      }
    }
  }

  lemma {:induction false} NoContainers(ports: seq<int>, protocols: seq<string>, image: string, serve: Serve)
    ensures protocols == [] || ports == [] ==> ContainersFor(ports, protocols, image, serve) == []
  {
    if ports != [] {
      NoContainers(ports[..|ports| - 1], protocols, image, serve);
    }
  }

  lemma SameContainers(pods: seq<Pod>, containers: seq<Container>)
    requires pods != [] && pods[|pods| - 1].containers == containers
    ensures forall p :: p in PortList(containers) ==> p in PortList(ContainersOf(pods))
    ensures forall p :: p in ProtocolList(containers) ==> p in ProtocolList(ContainersOf(pods))
  {
    ListsAppend(ContainersOf(pods[..|pods| - 1]), containers);
  }
}
