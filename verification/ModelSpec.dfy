// The cluster model as values: namespaces, their pods and the cached pod list (pkg/matrix/model.go).
module ModelSpec {
  import opened Text
  import opened Entities

  datatype NamespaceView = NamespaceView(name: string, pods: seq<Pod>)

  /** `cache` is None until AllPods fills it. */
  datatype ModelView = ModelView(namespaces: seq<NamespaceView>, cache: Option<seq<Pod>>)

  function Flatten(namespaces: seq<NamespaceView>): seq<Pod> {
    if namespaces == [] then []
    else Flatten(namespaces[..|namespaces| - 1]) + namespaces[|namespaces| - 1].pods
  }

  predicate Named(s: seq<Pod>, name: string) {
    exists i :: 0 <= i < |s| && s[i].name == name
  }

  /** The pods with other names, in order. */
  function Without(s: seq<Pod>, name: string): seq<Pod> {
    if s == [] then []
    else Without(s[..|s| - 1], name) + if s[|s| - 1].name == name then [] else [s[|s| - 1]]
  }

  // ---------- Deleting from a slice while ranging over it ----------

  /** After a deletion the next element slides under the loop index and is never looked at. */
  function Survivors(s: seq<Pod>, name: string): seq<Pod> {
    if s == [] then []
    else if s[0].name != name then [s[0]] + Survivors(s[1..], name)
    else if |s| == 1 then []
    else [s[1]] + Survivors(s[2..], name)
  }

  /** The first pod with the name is deleted and the search stops. */
  function WithoutFirst(s: seq<Pod>, name: string): seq<Pod> {
    if s == [] then []
    else if s[0].name == name then s[1..]
    else [s[0]] + WithoutFirst(s[1..], name)
  }

  /** The loop slices out of bounds exactly when the last pod has the name and so has an earlier one. */
  predicate RangePanics(s: seq<Pod>, name: string) {
    |s| > 0 && s[|s| - 1].name == name && Named(s[..|s| - 1], name)
  }

  ghost predicate DistinctNames(s: seq<Pod>) {
    forall i, j :: 0 <= i < j < |s| ==> s[i].name != s[j].name
  }

  lemma {:induction false} WithoutAppend(a: seq<Pod>, b: seq<Pod>, name: string)
    ensures Without(a + b, name) == Without(a, name) + Without(b, name)
  {
    if b == [] {
      assert a + b == a;
    } else {
      assert (a + b)[..|a + b| - 1] == a + b[..|b| - 1];
      WithoutAppend(a, b[..|b| - 1], name);
    }
  }

  lemma {:induction false} WithoutAbsent(s: seq<Pod>, name: string)
    requires !Named(s, name)
    ensures Without(s, name) == s
  {
    if s != [] {
      WithoutAbsent(s[..|s| - 1], name);
    }
  }

  lemma {:induction false} SurvivorsAbsent(s: seq<Pod>, name: string)
    requires !Named(s, name)
    ensures Survivors(s, name) == s && WithoutFirst(s, name) == s
  {
    if s != [] {
      assert forall i :: 0 <= i < |s[1..]| ==> s[1..][i] == s[i + 1];
      SurvivorsAbsent(s[1..], name);
    }
  }

  /** At most one pod has the name. */
  ghost predicate Once(s: seq<Pod>, name: string) {
    forall i, j :: 0 <= i < j < |s| ==> !(s[i].name == name && s[j].name == name)
  }

  lemma OnceRest(s: seq<Pod>, name: string)
    requires Once(s, name) && s != []
    ensures Once(s[1..], name)
    ensures s[0].name == name ==> !Named(s[1..], name) && (|s| > 1 ==> !Named(s[2..], name))
  {
    assert forall i :: 0 <= i < |s[1..]| ==> s[1..][i] == s[i + 1];
  }

  lemma WithoutHead(s: seq<Pod>, name: string)
    requires s != []
    ensures Without(s, name) == (if s[0].name == name then [] else [s[0]]) + Without(s[1..], name)
  {
    assert s == [s[0]] + s[1..];
    WithoutAppend([s[0]], s[1..], name);
    assert [s[0]][..0] == [];
  }

  /** If one pod has the name, both loops delete exactly it and keep the order of the rest; if none, neither deletes. */
  lemma {:induction false} OnceSurvivors(s: seq<Pod>, name: string)
    requires Once(s, name)
    ensures Survivors(s, name) == Without(s, name) == WithoutFirst(s, name)
    ensures !RangePanics(s, name)
  {
    if s != [] {
      OnceRest(s, name);
      WithoutHead(s, name);
      if s[0].name == name {
        WithoutAbsent(s[1..], name);
        if |s| > 1 {
          SurvivorsAbsent(s[2..], name);
          assert [s[1]] + s[2..] == s[1..];
        }
      } else {
        OnceSurvivors(s[1..], name);
      }
    }
  }

  /** With distinct names both loops delete exactly the pod with the name and keep the order of the rest. */
  lemma DistinctSurvivors(s: seq<Pod>, name: string)
    requires DistinctNames(s)
    ensures Survivors(s, name) == Without(s, name) == WithoutFirst(s, name)
    ensures !RangePanics(s, name)
  {
    OnceSurvivors(s, name);
  }

  /** What Survivors leaves has no pod with the name exactly when no two neighbours have it. */
  lemma {:induction false} SurvivorsMayRemain(s: seq<Pod>, name: string)
    ensures !Named(Survivors(s, name), name) <==>
            forall i :: 0 <= i < |s| - 1 ==> !(s[i].name == name && s[i + 1].name == name)
  {
    var r := Survivors(s, name);
    if s == [] {
    } else if s[0].name != name {
      SurvivorsMayRemain(s[1..], name);
      NamedHead(s[0], Survivors(s[1..], name), name);
      assert forall i :: 1 <= i < |s| ==> s[i] == s[1..][i - 1];
      if forall i :: 0 <= i < |s| - 1 ==> !(s[i].name == name && s[i + 1].name == name) {
        forall i | 0 <= i < |s[1..]| - 1
          ensures !(s[1..][i].name == name && s[1..][i + 1].name == name)
        {
          assert !(s[i + 1].name == name && s[i + 2].name == name);
        }
      }
    } else if |s| > 1 {
      SurvivorsMayRemain(s[2..], name);
      NamedHead(s[1], Survivors(s[2..], name), name);
      assert forall i :: 2 <= i < |s| ==> s[i] == s[2..][i - 2];
      if forall i :: 0 <= i < |s| - 1 ==> !(s[i].name == name && s[i + 1].name == name) {
        assert !(s[0].name == name && s[0 + 1].name == name);
        forall i | 0 <= i < |s[2..]| - 1
          ensures !(s[2..][i].name == name && s[2..][i + 1].name == name)
        {
          assert !(s[i + 2].name == name && s[i + 3].name == name);
        }
      }
    }
  }

  lemma NamedHead(p: Pod, s: seq<Pod>, name: string)
    ensures Named([p] + s, name) <==> p.name == name || Named(s, name)
  {
    if Named(s, name) {
      var i :| 0 <= i < |s| && s[i].name == name;
      assert ([p] + s)[i + 1].name == name;
    }
    if p.name == name {
      assert ([p] + s)[0].name == name;
    }
  }

  /** Of any two pods with the name, the later is neither right behind the earlier nor the last pod of all. */
  ghost predicate Apart(s: seq<Pod>, name: string) {
    forall i, j :: 0 <= i < j < |s| && s[i].name == name && s[j].name == name ==> i + 1 < j < |s| - 1
  }

  /**
   * In general the namespace loop finishes with every pod of the name removed exactly when they are apart. Otherwise it
   * panics or leaves one behind.
   */
  lemma RemovesAllExactly(s: seq<Pod>, name: string)
    ensures !RangePanics(s, name) && !Named(Survivors(s, name), name) <==> Apart(s, name)
  {
    SurvivorsMayRemain(s, name);
    forall i | 0 <= i < |s| - 1 && s[i].name == name
      ensures Named(s[..|s| - 1], name)
    {
      assert s[..|s| - 1][i].name == name;
    }
    if RangePanics(s, name) {
      var i :| 0 <= i < |s| - 1 && s[..|s| - 1][i].name == name;
      assert s[i].name == name && s[|s| - 1].name == name;
    }
    forall i | 0 <= i < |s| - 1 && s[i].name == name && s[i + 1].name == name
      ensures !Apart(s, name)
    {
    }
  }

  // ---------- Operations ----------

  datatype Op =
    | AllPods
    | AddNamespace(name: string, pods: seq<Pod>)
    | AddNamespaceWithImage(name: string, pods: seq<Pod>)
    | AddPod(pod: Pod, namespaceName: string)
    | RemovePod(podName: string, namespaceName: string)

  function FillCache(v: ModelView): ModelView {
    if v.cache == None then v.(cache := Some(Flatten(v.namespaces))) else v
  }

  /** Every namespace with the name gets the pod. */
  function AddTo(namespaces: seq<NamespaceView>, pod: Pod, name: string): (r: seq<NamespaceView>)
    ensures |r| == |namespaces|
  {
    seq(|namespaces|, i requires 0 <= i < |namespaces| =>
      if namespaces[i].name == name then namespaces[i].(pods := namespaces[i].pods + [pod]) else namespaces[i])
  }

  /** RemovePod works on the last namespace with the name. */
  function LastNamespace(namespaces: seq<NamespaceView>, name: string): (k: Option<nat>)
    ensures k.Some? ==> k.value < |namespaces| && namespaces[k.value].name == name
                        && forall i :: k.value < i < |namespaces| ==> namespaces[i].name != name
    ensures k.None? ==> forall i :: 0 <= i < |namespaces| ==> namespaces[i].name != name
  {
    if namespaces == [] then None
    else if namespaces[|namespaces| - 1].name == name then Some(|namespaces| - 1)
    else LastNamespace(namespaces[..|namespaces| - 1], name)
  }

  /** AddPod and RemovePod dereference the cache; RemovePod's namespace loop may slice out of bounds. */
  predicate Panics(v: ModelView, op: Op) {
    match op
    case AddPod(_, _) => v.cache == None
    case RemovePod(podName, ns) =>
      var k := LastNamespace(v.namespaces, ns);
      k.Some? && (v.cache == None || RangePanics(v.namespaces[k.value].pods, podName))
    case _ => false
  }

  function Step(v: ModelView, op: Op): ModelView
    requires !Panics(v, op)
  {
    match op
    case AllPods => FillCache(v)
    case AddNamespace(name, pods) => ModelView(v.namespaces + [NamespaceView(name, pods)], None)
    case AddNamespaceWithImage(name, pods) => v.(namespaces := v.namespaces + [NamespaceView(name, pods)])
    case AddPod(pod, ns) => ModelView(AddTo(v.namespaces, pod, ns), Some(v.cache.value + [pod]))
    case RemovePod(podName, ns) =>
      match LastNamespace(v.namespaces, ns)
      case None => v
      case Some(k) =>
        ModelView(v.namespaces[k := v.namespaces[k].(pods := Survivors(v.namespaces[k].pods, podName))],
                  Some(WithoutFirst(v.cache.value, podName)))
  }

  /** RemovePod reports an error unless it deleted something from the cache. */
  predicate RemoveFails(v: ModelView, podName: string, namespaceName: string)
    requires !Panics(v, RemovePod(podName, namespaceName))
  {
    LastNamespace(v.namespaces, namespaceName).None? || !Named(v.cache.value, podName)
  }

  /** The error is for a namespace nobody has or a pod the cache does not list, wherever the pod is. */
  lemma RemoveFailsExactly(v: ModelView, podName: string, namespaceName: string)
    requires !Panics(v, RemovePod(podName, namespaceName))
    ensures RemoveFails(v, podName, namespaceName) <==>
            (forall i :: 0 <= i < |v.namespaces| ==> v.namespaces[i].name != namespaceName)
            || forall p :: p in v.cache.value ==> p.name != podName
  {
    var k := LastNamespace(v.namespaces, namespaceName);
    if k.Some? {
      assert v.namespaces[k.value].name == namespaceName;
      if Named(v.cache.value, podName) {
        var i :| 0 <= i < |v.cache.value| && v.cache.value[i].name == podName;
        assert v.cache.value[i] in v.cache.value;
      }
    }
  }

  // ---------- The pods of all namespaces ----------

  lemma {:induction false} FlattenSplit(nss: seq<NamespaceView>, k: nat)
    requires k < |nss|
    ensures Flatten(nss) == Flatten(nss[..k]) + nss[k].pods + Flatten(nss[k + 1..])
  {
    var front := nss[..|nss| - 1];
    if k == |nss| - 1 {
      assert Flatten(nss[k + 1..]) == [];
    } else {
      FlattenSplit(front, k);
      assert front[..k] == nss[..k];
      assert front[k + 1..] == nss[k + 1..][..|nss| - k - 2];
    }
  }

  lemma FlattenUpdate(nss: seq<NamespaceView>, k: nat, pods: seq<Pod>)
    requires k < |nss|
    ensures Flatten(nss[k := nss[k].(pods := pods)]) == Flatten(nss[..k]) + pods + Flatten(nss[k + 1..])
  {
    var updated := nss[k := nss[k].(pods := pods)];
    FlattenSplit(updated, k);
    assert updated[..k] == nss[..k] && updated[k + 1..] == nss[k + 1..];
  }

  lemma FlattenOne(ns: NamespaceView)
    ensures Flatten([ns]) == ns.pods
  {
    assert [ns][..0] == [];
  }

  lemma FlattenAppend(nss: seq<NamespaceView>, last: NamespaceView)
    ensures Flatten(nss + [last]) == Flatten(nss) + last.pods
  {
    assert (nss + [last])[..|nss|] == nss;
  }
}
