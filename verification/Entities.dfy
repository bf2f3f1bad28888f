// Pods, containers and pod strings (pkg/entities).
module Entities {
  import opened Text

  // Kinds of address a probe can aim at, as spelled in the program.
  const POD_IP := "podip"
  const CLUSTER_IP := "clusteip"
  const NODE_PORT := "nodeport"
  const EXTERNAL_NAME := "externalname"
  const LOAD_BALANCER := "loadbalancer"
  const ALL_PROTOCOLS := "allprotocols"

  const TCP := "TCP"
  const UDP := "UDP"
  const SCTP := "SCTP"

  datatype Container = Container(port: int, protocol: string, image: string, command: seq<string>)

  datatype ExternalIP = ExternalIP(ip: string, protocol: string)

  /** What a probe worker reads from a pod. */
  datatype PodView = PodView(
    namespace: string,
    name: string,
    nodeName: string,
    externalIPs: seq<ExternalIP>,
    skipProbe: bool,
    serviceName: string,
    clusterIP: string,
    podIP: string,
    hostIP: string,
    toPort: int)

  function NewPodString(nodeName: string, namespace: string, podName: string): string {
    nodeName + "/" + namespace + "/" + podName
  }

  /** A pod string with fewer than three pieces makes the program panic, hence the requires below. */
  function NamespaceOf(pod: string): string
    requires |Split(pod, '/')| >= 3
  {
    Split(pod, '/')[1]
  }

  function PodNameOf(pod: string): string
    requires |Split(pod, '/')| >= 3
  {
    Split(pod, '/')[2]
  }

  /** Every pod string the program builds can be split, whatever its components hold. */
  lemma BuiltSplits(node: string, ns: string, name: string)
    ensures |Split(NewPodString(node, ns, name), '/')| >= 3
  {
    SlashAdds(ns, name);
    SlashAdds(node, ns + ("/" + name));
    assert node + ("/" + (ns + ("/" + name))) == NewPodString(node, ns, name);
  }

  lemma SlashAdds(s: string, t: string)
    ensures |Split(s + ("/" + t), '/')| >= |Split(t, '/')| + 1
  {
    SplitGrows(s, "/" + t);
    SplitFirst("", '/', t);
    assert "" + ['/'] + t == "/" + t;
  }

  lemma {:induction false} SplitGrows(s: string, t: string)
    ensures |Split(s + t, '/')| >= |Split(t, '/')|
  {
    if s == "" {
      assert s + t == t;
    } else {
      assert (s + t)[1..] == s[1..] + t;
      SplitGrows(s[1..], t);
    }
  }

  /** Splitting a built pod string gives its components back exactly when none of them holds a slash. */
  lemma PodStringRoundTrip(node: string, ns: string, name: string)
    ensures var pod := NewPodString(node, ns, name);
            Split(pod, '/') == [node, ns, name] <==> '/' !in node && '/' !in ns && '/' !in name
  {
    var pod := NewPodString(node, ns, name);
    if '/' !in node && '/' !in ns && '/' !in name {
      assert pod == node + ['/'] + (ns + ['/'] + name);
      SplitFirst(node, '/', ns + ['/'] + name);
      SplitFirst(ns, '/', name);
      SplitWhole(name, '/');
    } else {
      var components := [node, ns, name];
      assert components[0] == node && components[1] == ns && components[2] == name;
    }
  }

  ghost predicate NoSlash(node: string, ns: string, name: string) {
    '/' !in node && '/' !in ns && '/' !in name
  }

  /** Two pods without slashes share a table key only if they agree on node, namespace and name. */
  lemma PodStringInjective(a: string, b: string, c: string, x: string, y: string, z: string)
    requires NoSlash(a, b, c) && NoSlash(x, y, z)
    requires NewPodString(a, b, c) == NewPodString(x, y, z)
    ensures a == x && b == y && c == z
  {
    PodStringRoundTrip(a, b, c);
    PodStringRoundTrip(x, y, z);
    assert [a, b, c][0] == [x, y, z][0] && [a, b, c][1] == [x, y, z][1] && [a, b, c][2] == [x, y, z][2];
  }

  /** The external addresses carrying one protocol, in order. */
  function ByProtocol(ips: seq<ExternalIP>, protocol: string): (r: seq<ExternalIP>) {
    if ips == [] then []
    else (if ips[0].protocol == protocol then [ips[0]] else []) + ByProtocol(ips[1..], protocol)
  }

  /** The first address kept is the first one with that protocol; nothing is kept only if there is none. */
  lemma {:induction false} ByProtocolFirst(ips: seq<ExternalIP>, protocol: string)
    ensures ByProtocol(ips, protocol) == [] <==> forall k :: 0 <= k < |ips| ==> ips[k].protocol != protocol
    ensures ByProtocol(ips, protocol) != [] ==>
              exists k :: 0 <= k < |ips| && ips[k].protocol == protocol && ByProtocol(ips, protocol)[0] == ips[k]
                          && forall j :: 0 <= j < k ==> ips[j].protocol != protocol
  {
    if ips == [] {
    } else if ips[0].protocol == protocol {
      assert ByProtocol(ips, protocol)[0] == ips[0];
    } else {
      ByProtocolFirst(ips[1..], protocol);
      assert ByProtocol(ips, protocol) == ByProtocol(ips[1..], protocol);
      assert forall k :: 1 <= k < |ips| ==> ips[k] == ips[1..][k - 1];
      if ByProtocol(ips, protocol) != [] {
        var k :| 0 <= k < |ips[1..]| && ips[1..][k].protocol == protocol
                 && ByProtocol(ips[1..], protocol)[0] == ips[1..][k]
                 && forall j :: 0 <= j < k ==> ips[1..][j].protocol != protocol;
        assert ips[k + 1] == ips[1..][k];
        assert forall j :: 0 <= j < k + 1 ==> ips[j].protocol != protocol;
      }
    }
  }

  /** Address by address, in order: those with the protocol are kept and the others are not. */
  lemma {:induction false} ByProtocolKeeps(ips: seq<ExternalIP>, ip: ExternalIP, protocol: string)
    ensures ByProtocol([], protocol) == []
    ensures ByProtocol(ips + [ip], protocol) == ByProtocol(ips, protocol) + if ip.protocol == protocol then [ip] else []
  {
    if ips == [] {
      assert ips + [ip] == [ip] && [ip][1..] == [];
    } else {
      var head := if ips[0].protocol == protocol then [ips[0]] else [];
      var tail := if ip.protocol == protocol then [ip] else [];
      ByProtocolKeeps(ips[1..], ip, protocol);
      assert (ips + [ip])[0] == ips[0] && (ips + [ip])[1..] == ips[1..] + [ip];
      assert ByProtocol(ips + [ip], protocol) == head + ByProtocol(ips[1..] + [ip], protocol);
      assert head + (ByProtocol(ips[1..], protocol) + tail) == (head + ByProtocol(ips[1..], protocol)) + tail;
    }
  }

  /** Namespace, name and containers are set when the pod is built and never assigned again. */
  class Pod {
    const namespace: string
    const name: string
    const containers: seq<Container>
    var nodeName: string
    var externalIPs: seq<ExternalIP>
    var skipProbe: bool
    var serviceName: string
    var clusterIP: string
    var podIP: string
    var hostIP: string
    var toPort: int
    var hostNetwork: bool

    constructor (namespace: string, name: string, containers: seq<Container>)
      ensures this.namespace == namespace && this.name == name && this.containers == containers
      ensures View() == PodView(namespace, name, "", [], false, "", "", "", "", 0) && !hostNetwork
    {
      this.namespace, this.name, this.containers := namespace, name, containers;
      nodeName, externalIPs, skipProbe := "", [], false;
      serviceName, clusterIP, podIP, hostIP := "", "", "", "";
      toPort, hostNetwork := 0, false;
    }

    ghost function View(): PodView
      reads this
    {
      PodView(namespace, name, nodeName, externalIPs, skipProbe, serviceName, clusterIP, podIP, hostIP, toPort)
    }

    function PodString(): string
      reads this`nodeName
    {
      NewPodString(nodeName, namespace, name)
    }

    /** Erases what a test left on the pod. Node and internal addresses stay, so the table key stays. */
    method Reset()
      modifies `externalIPs, `skipProbe, `serviceName, `clusterIP, `toPort, `hostNetwork
      ensures externalIPs == [] && !skipProbe && serviceName == "" && clusterIP == "" && toPort == 0 && !hostNetwork
      ensures podIP == old(podIP) && hostIP == old(hostIP) && nodeName == old(nodeName)
      ensures PodString() == old(PodString())
    {
      externalIPs := [];
      skipProbe := false;
      serviceName := "";
      clusterIP := "";
      toPort := 0;
      hostNetwork := false;
    }

    method GetExternalIPsByProtocol(protocol: string) returns (ips: seq<ExternalIP>)
      ensures ips == ByProtocol(externalIPs, protocol)
    {
      ips := [];
      for i := 0 to |externalIPs|
        invariant ips + ByProtocol(externalIPs[i..], protocol) == ByProtocol(externalIPs, protocol)
      {
        assert externalIPs[i..][1..] == externalIPs[i + 1..];
        if externalIPs[i].protocol == protocol {
          ips := ips + [externalIPs[i]];
        }
      }
    }
  }
}
