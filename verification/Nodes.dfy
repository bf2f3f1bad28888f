// Listing the nodes that are ready (pkg/matrix/manager.go).
module Nodes {
  import opened Text

  datatype Condition = Condition(kind: string, status: string)

  datatype ClusterNode = ClusterNode(name: string, conditions: seq<Condition>)

  const READY := Condition("Ready", "True")

  predicate IsReady(node: ClusterNode) {
    READY in node.conditions
  }

  /** The name once for every condition that says the node is ready. */
  function Entries(name: string, conditions: seq<Condition>): seq<string> {
    if conditions == [] then []
    else Entries(name, conditions[..|conditions| - 1]) + if conditions[|conditions| - 1] == READY then [name] else []
  }

  function ReadyNodes(items: seq<ClusterNode>): seq<string> {
    if items == [] then []
    else ReadyNodes(items[..|items| - 1]) + Entries(items[|items| - 1].name, items[|items| - 1].conditions)
  }

  lemma {:induction false} EntriesOf(name: string, conditions: seq<Condition>)
    ensures forall n :: n in Entries(name, conditions) <==> n == name && READY in conditions
    ensures |Entries(name, conditions)| == multiset(conditions)[READY]
  {
    if conditions != [] {
      var front, last := conditions[..|conditions| - 1], conditions[|conditions| - 1];
      assert conditions == front + [last];
      EntriesOf(name, front);
    }
  }

  predicate ReadyByName(items: seq<ClusterNode>, name: string) {
    exists i :: 0 <= i < |items| && items[i].name == name && IsReady(items[i])
  }

  lemma ReadyByNameNext(front: seq<ClusterNode>, last: ClusterNode, name: string)
    ensures ReadyByName(front + [last], name) <==> ReadyByName(front, name) || (last.name == name && IsReady(last))
  {
    var items := front + [last];
    if ReadyByName(front, name) {
      var i :| 0 <= i < |front| && front[i].name == name && IsReady(front[i]);
      assert items[i] == front[i];
    }
    assert items[|front|] == last;
  }

  lemma {:induction false} ReadyNodesAreListed(items: seq<ClusterNode>, name: string)
    ensures name in ReadyNodes(items) <==> ReadyByName(items, name)
  {
    if items != [] {
      var front, last := items[..|items| - 1], items[|items| - 1];
      ReadyNodesAreListed(front, name);
      EntriesOf(last.name, last.conditions);
      ReadyByNameNext(front, last, name);
      assert items == front + [last];
    }
  }

  /** No two nodes share a name and none is ready twice over. */
  ghost predicate Ordinary(items: seq<ClusterNode>) {
    && (forall i, j :: 0 <= i < j < |items| ==> items[i].name != items[j].name)
    && forall i :: 0 <= i < |items| ==> multiset(items[i].conditions)[Condition("Ready", "True")] <= 1
  }

  /** Node by node, in order: the name once for every condition of kind Ready whose status is True. */
  lemma ReadyNodesNext(items: seq<ClusterNode>, node: ClusterNode)
    ensures ReadyNodes([]) == []
    ensures ReadyNodes(items + [node])
            == ReadyNodes(items) + seq(multiset(node.conditions)[Condition("Ready", "True")], _ => node.name)
  {
    assert (items + [node])[..|items|] == items;
    EntriesOf(node.name, node.conditions);
    var entries := Entries(node.name, node.conditions);
    forall i | 0 <= i < |entries|
      ensures entries[i] == node.name
    {
      assert entries[i] in entries;
    }
  }

  /** Exactly the ready nodes are listed; for ordinary nodes, each of them once. */
  lemma {:induction false} ReadyNodesOnce(items: seq<ClusterNode>)
    ensures forall name :: name in ReadyNodes(items) <==>
              exists i :: 0 <= i < |items| && items[i].name == name && Condition("Ready", "True") in items[i].conditions
    ensures Ordinary(items) ==> Distinct(ReadyNodes(items))
  {
    forall name
      ensures name in ReadyNodes(items) <==> ReadyByName(items, name)
    {
      ReadyNodesAreListed(items, name);
    }
    if items != [] && Ordinary(items) {
      var front, last := items[..|items| - 1], items[|items| - 1];
      assert forall i :: 0 <= i < |front| ==> items[i] == front[i];
      ReadyNodesOnce(front);
      EntriesOf(last.name, last.conditions);
      var before, entries := ReadyNodes(front), Entries(last.name, last.conditions);
      assert !ReadyByName(front, last.name) && |entries| <= 1;
      forall i, j | 0 <= i < j < |before + entries|
        ensures (before + entries)[i] != (before + entries)[j]
      {
        if j == |before| {
          assert entries[0] in entries && before[i] in before;
        }
      }
    }
  }

  /** None is a listing that failed. */
  method GetReadyNodes(listed: Option<seq<ClusterNode>>) returns (nodes: Option<seq<string>>)
    ensures nodes == if listed == None then None else Some(ReadyNodes(listed.value))
  {
    if listed == None {
      return None;
    }
    var items, ready := listed.value, [];
    for i := 0 to |items|
      invariant ready == ReadyNodes(items[..i])
    {
      var conditions := items[i].conditions;
      for c := 0 to |conditions|
        invariant ready == ReadyNodes(items[..i]) + Entries(items[i].name, conditions[..c])
      {
        if conditions[c] == READY {
          ready := ready + [items[i].name];
        }
        assert conditions[..c + 1][..c] == conditions[..c];
      }
      assert conditions[..|conditions|] == conditions && items[..i + 1][..i] == items[..i];
    }
    assert items[..|items|] == items;
    nodes := Some(ready);
  }
}
