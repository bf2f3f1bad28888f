// Names and ports of the services under test (pkg/entities/service.go, pkg/matrix/manager.go).
module Services {
  import opened Text
  import opened Entities

  function ServiceName(namespace: string, podName: string): string {
    "s-" + namespace + "-" + podName
  }

  function Numbered(prefix: string, id: nat): string {
    prefix + "-" + Decimal(id)
  }

  ghost predicate EndsIn(name: string, id: nat) {
    exists prefix :: name == Numbered(prefix, id)
  }

  /** Names that end in their own positions are pairwise distinct, whatever comes before the number. */
  lemma NumberedDistinct(names: seq<string>)
    requires forall i :: 0 <= i < |names| ==> EndsIn(names[i], i + 1)
    ensures Distinct(names)
  {
    forall i, j | 0 <= i < j < |names|
      ensures names[i] != names[j]
    {
      var a :| names[i] == Numbered(a, i + 1);
      var b :| names[j] == Numbered(b, j + 1);
      if names[i] == names[j] {
        LastPiece(a, Decimal(i + 1), b, Decimal(j + 1), '-');
        DecimalInjective(i + 1, j + 1);
      }
    }
  }

  datatype Service = Service(name: string, namespace: string)

  datatype Template = Template(name: string, namespace: string)

  /** The program-wide service counter, here used by one goroutine at a time. */
  class ServiceID {
    var id: nat
    // Every name handed out so far.
    ghost var issued: seq<string>

    ghost predicate Valid()
      reads this
    {
      |issued| == id && forall i :: 0 <= i < |issued| ==> EndsIn(issued[i], i + 1)
    }

    constructor ()
      ensures Valid() && issued == []
    {
      id, issued := 0, [];
    }

    method IncreaseServiceID()
      modifies this`id
      ensures id == old(id) + 1
    {
      id := id + 1;
    }

    method NewService(p: Pod) returns (s: Service)
      requires Valid()
      modifies this
      ensures Valid() && Distinct(issued) && id == old(id) + 1 && issued == old(issued) + [s.name]
      ensures s.name == "s-" + p.namespace + "-" + p.name + "-" + Decimal(id) && s.namespace == p.namespace
    {
      IncreaseServiceID();
      s := Service(ServiceName(p.namespace, p.name) + "-" + Decimal(id), p.namespace);
      issued := issued + [s.name];
      assert s.name == Numbered(ServiceName(p.namespace, p.name), id);
      NumberedDistinct(issued);
    }

    /** The number is used up whether or not the cluster then accepts the service and gives it an address. */
    method CreateServiceFromTemplate(t: Template, accepted: bool, clusterIP: string) returns (created: Option<Service>)
      requires Valid()
      modifies this
      ensures Valid() && Distinct(issued) && id == old(id) + 1
      ensures issued == old(issued) + [t.name + "-" + Decimal(id)]
      ensures created.Some? <==> accepted && clusterIP != ""
      ensures created.Some? ==> created.value == Service(t.name + "-" + Decimal(id), t.namespace)
    {
      IncreaseServiceID();
      var s := Service(t.name + "-" + Decimal(id), t.namespace);
      issued := issued + [s.name];
      assert s.name == Numbered(t.name, id);
      NumberedDistinct(issued);
      if !accepted || clusterIP == "" {
        return None;
      }
      created := Some(s);
    }
  }

  // ---------- Several goroutines ----------

  /** The counter goes up under a lock, but the number that goes into the name is read after the lock is released. */
  datatype Event = Increase(who: nat) | ReadNumber(who: nat)

  /**
   * A schedule of calls, each of which increases before it reads; those of `waiting` have increased and not read yet.
   */
  predicate Schedule(run: seq<Event>, waiting: set<nat>)
    decreases |run|
  {
    if run == [] then waiting == {}
    else match run[0]
         case Increase(who) => who !in waiting && Schedule(run[1..], waiting + {who})
         case ReadNumber(who) => who in waiting && Schedule(run[1..], waiting - {who})
  }

  /** The numbers read, in order. */
  function Numbers(run: seq<Event>, id: nat): seq<nat>
    decreases |run|
  {
    if run == [] then []
    else match run[0]
         case Increase(_) => Numbers(run[1..], id + 1)
         case ReadNumber(_) => [id] + Numbers(run[1..], id)
  }

  /** One call after the other. */
  predicate OneByOne(run: seq<Event>)
    decreases |run|
  {
    || run == []
    || (|run| > 1 && run[0].Increase? && run[1] == ReadNumber(run[0].who) && OneByOne(run[2..]))
  }

  lemma {:induction false} NumbersGrow(run: seq<Event>, id: nat)
    ensures forall n :: n in Numbers(run, id) ==> n >= id
    decreases |run|
  {
    if run != [] {
      NumbersGrow(run[1..], if run[0].Increase? then id + 1 else id);
    }
  }

  lemma DistinctHead(n: nat, rest: seq<nat>)
    ensures Distinct([n] + rest) <==> Distinct(rest) && n !in rest
  {
    var s := [n] + rest;
    assert forall i :: 0 <= i < |rest| ==> s[i + 1] == rest[i];
    if Distinct(s) {
      forall i, j | 0 <= i < j < |rest|
        ensures rest[i] != rest[j]
      {
        assert s[i + 1] != s[j + 1];
      }
      forall i | 0 <= i < |rest|
        ensures rest[i] != n
      {
        assert s[0] != s[i + 1];
      }
    }
  }

  /** Distinct numbers above the last one read: no more calls can be waiting than the counter is ahead. */
  lemma {:induction false} WaitingBound(run: seq<Event>, waiting: set<nat>, id: nat, last: nat)
    requires Schedule(run, waiting) && Distinct(Numbers(run, id)) && last <= id
    requires forall n :: n in Numbers(run, id) ==> n > last
    ensures |waiting| <= id - last
    decreases |run|
  {
    if run != [] {
      match run[0] {
        case Increase(who) => WaitingBound(run[1..], waiting + {who}, id + 1, last);
        case ReadNumber(who) =>
          assert id in Numbers(run, id);
          DistinctHead(id, Numbers(run[1..], id));
          NumbersGrow(run[1..], id);
          WaitingBound(run[1..], waiting - {who}, id, id);
      }
    }
  }

  /** Once two calls wait for their numbers, two calls read the same one. */
  lemma {:induction false} TwoWaiting(run: seq<Event>, waiting: set<nat>, id: nat)
    requires Schedule(run, waiting) && |waiting| > 1
    ensures !Distinct(Numbers(run, id))
    decreases |run|
  {
    match run[0] {
      case Increase(who) => TwoWaiting(run[1..], waiting + {who}, id + 1);
      case ReadNumber(who) =>
        DistinctHead(id, Numbers(run[1..], id));
        NumbersGrow(run[1..], id);
        if Distinct(Numbers(run, id)) {
          WaitingBound(run[1..], waiting - {who}, id, id);
          assert false;
        }
    }
  }

  /** The numbers are distinct if and only if the calls come one after the other: the lock alone does not see to it. */
  lemma {:induction false} NumbersDistinctExactly(run: seq<Event>, id: nat)
    requires Schedule(run, {})
    ensures Distinct(Numbers(run, id)) <==> OneByOne(run)
    decreases |run|
  {
    if run != [] {
      var who, rest := run[0].who, run[1..];
      assert {} + {who} == {who};
      match rest[0] {
        case Increase(other) =>
          assert |{who} + {other}| == 2;
          TwoWaiting(rest[1..], {who} + {other}, id + 2);
        case ReadNumber(same) =>
          assert {who} - {same} == {} && rest[1..] == run[2..];
          NumbersDistinctExactly(run[2..], id + 1);
          DistinctHead(id + 1, Numbers(run[2..], id + 1));
          NumbersGrow(run[2..], id + 1);
          NextNumberIsLarger(run[2..], id + 1);
      }
    }
  }

  lemma NextNumberIsLarger(run: seq<Event>, id: nat)
    requires Schedule(run, {})
    ensures forall n :: n in Numbers(run, id) ==> n > id
  {
    if run != [] {
      NumbersGrow(run[1..], id + 1);
    }
  }

  /** Two calls that both increase before either reads, as the lock allows, take the same number. */
  lemma SameNumberTwice(id: nat)
    ensures var run := [Increase(0), Increase(1), ReadNumber(0), ReadNumber(1)];
            Schedule(run, {}) && Numbers(run, id) == [id + 2, id + 2]
  {
    var run := [Increase(0), Increase(1), ReadNumber(0), ReadNumber(1)];
    assert run[1..] == [Increase(1), ReadNumber(0), ReadNumber(1)];
    assert run[1..][1..] == [ReadNumber(0), ReadNumber(1)] && run[1..][1..][1..] == [ReadNumber(1)];
    assert {0} + {1} - {0} - {1} == {};
  }

  // ---------- Ports ----------

  datatype ServicePort = ServicePort(name: string, protocol: string, port: int)

  function LowerChar(c: char): char {
    if 'A' <= c <= 'Z' then (c as int + 32) as char else c
  }

  /** strings.ToLower, for the ASCII names of protocols. */
  function Lower(s: string): (r: string)
    ensures |r| == |s|
    ensures forall i :: 0 <= i < |s| ==> r[i] == if 'A' <= s[i] <= 'Z' then (s[i] as int + 32) as char else s[i]
  {
    seq(|s|, i requires 0 <= i < |s| => LowerChar(s[i]))
  }

  function PortOf(c: Container): ServicePort {
    ServicePort("service-port-" + Lower(c.protocol) + "-" + FormatInt(c.port), c.protocol, c.port)
  }

  predicate Wanted(c: Container, protocol: string) {
    protocol == ALL_PROTOCOLS || protocol == c.protocol
  }

  function PortSet(containers: seq<Container>, protocol: string): set<ServicePort> {
    set c | c in containers && Wanted(c, protocol) :: PortOf(c)
  }

  lemma PortSetNext(containers: seq<Container>, protocol: string, i: nat)
    requires i < |containers|
    ensures PortSet(containers[..i + 1], protocol) ==
            PortSet(containers[..i], protocol) + if Wanted(containers[i], protocol) then {PortOf(containers[i])} else {}
  {
    var some, more := containers[..i], containers[..i + 1];
    assert more == some + [containers[i]];
    forall sp | sp in PortSet(more, protocol)
      ensures sp in PortSet(some, protocol) + if Wanted(containers[i], protocol) then {PortOf(containers[i])} else {}
    {
      var c :| c in more && Wanted(c, protocol) && PortOf(c) == sp;
      assert c in some || c == containers[i];
    }
  }

  /** Each port of the wanted protocol exactly once, in whatever order Go visits the set. */
  method PortFromContainer(containers: seq<Container>, protocol: string) returns (ports: seq<ServicePort>)
    ensures Distinct(ports) && forall sp :: sp in ports <==> sp in PortSet(containers, protocol)
    ensures forall sp :: sp in ports <==>
              sp.name == "service-port-" + Lower(sp.protocol) + "-" + FormatInt(sp.port)
              && exists c :: c in containers && c.protocol == sp.protocol && c.port == sp.port
                             && (protocol == "allprotocols" || protocol == sp.protocol)
  {
    var portsSet: set<ServicePort> := {};
    for i := 0 to |containers|
      invariant portsSet == PortSet(containers[..i], protocol)
    {
      PortSetNext(containers, protocol, i);
      var c := containers[i];
      if protocol == ALL_PROTOCOLS || protocol == c.protocol {
        portsSet := portsSet
          + {ServicePort("service-port-" + Lower(c.protocol) + "-" + FormatInt(c.port), c.protocol, c.port)};
      }
    }
    assert containers[..|containers|] == containers;
    ports := [];
    while portsSet != {}
      invariant Distinct(ports) && forall sp :: sp in ports ==> sp !in portsSet
      invariant forall sp :: sp in ports || sp in portsSet <==> sp in PortSet(containers, protocol)
    {
      var sp :| sp in portsSet;
      ports := ports + [sp];
      portsSet := portsSet - {sp};
    }
  }

  /** Two ports share a name exactly when they agree on the number and, up to case, on the protocol. */
  lemma PortNames(a: Container, b: Container)
    requires '-' !in a.protocol && '-' !in b.protocol
    ensures PortOf(a).name == PortOf(b).name <==> a.port == b.port && Lower(a.protocol) == Lower(b.protocol)
  {
    NamePieces(a);
    NamePieces(b);
    if PortOf(a).name == PortOf(b).name {
      FirstPiece(Lower(a.protocol), FormatInt(a.port), Lower(b.protocol), FormatInt(b.port), '-');
      FormatIntInjective(a.port, b.port);
    }
  }

  lemma NamePieces(c: Container)
    ensures var name, skip := PortOf(c).name, |"service-port-"|;
            |name| >= skip && name[skip..] == Lower(c.protocol) + ['-'] + FormatInt(c.port)
  {
  }

  ghost predicate Standard(containers: seq<Container>) {
    forall c :: c in containers ==> c.protocol in {TCP, UDP, SCTP}
  }

  lemma LowerStandard()
    ensures Lower(TCP) == "tcp" && Lower(UDP) == "udp" && Lower(SCTP) == "sctp"
  {
  }

  /** For the three protocols in use, different ports have different names. */
  lemma PortNamesDistinct(containers: seq<Container>, protocol: string, p: ServicePort, q: ServicePort)
    requires Standard(containers)
    requires p in PortSet(containers, protocol) && q in PortSet(containers, protocol) && p.name == q.name
    ensures p == q
  {
    var c :| c in containers && Wanted(c, protocol) && PortOf(c) == p;
    var d :| d in containers && Wanted(d, protocol) && PortOf(d) == q;
    PortNames(c, d);
    LowerStandard();
  }

  /**
   * The ports of all protocols are the disjoint union of those of each protocol: a port is among them exactly if it is
   * among those of its own protocol, and it is among those of no other.
   */
  lemma AllProtocolsSplit(containers: seq<Container>)
    ensures forall sp :: sp in PortSet(containers, ALL_PROTOCOLS) <==> sp in PortSet(containers, sp.protocol)
    ensures forall protocol, sp :: protocol != ALL_PROTOCOLS && sp in PortSet(containers, protocol) ==>
            sp.protocol == protocol
  {
    forall sp | sp in PortSet(containers, ALL_PROTOCOLS)
      ensures sp in PortSet(containers, sp.protocol)
    {
      var c :| c in containers && PortOf(c) == sp;
      assert Wanted(c, sp.protocol);
    }
  }
}
