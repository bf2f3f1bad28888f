// When the cached pod list keeps up with the namespaces (pkg/matrix/model.go).
module Coherence {
  import opened Text
  import opened Entities
  import opened ModelSpec

  /** The cached pods are the pods of the namespaces, in some order. */
  ghost predicate Coherent(v: ModelView) {
    v.cache.Some? ==> multiset(v.cache.value) == multiset(Flatten(v.namespaces))
  }

  /** The first pod with the name, which is the one RemovePod takes out of the cache. */
  ghost function First(s: seq<Pod>, name: string): Option<Pod> {
    if s == [] then None
    else if s[0].name == name then Some(s[0])
    else First(s[1..], name)
  }

  /** The pods RemovePod's namespace loop deletes. */
  ghost function Deleted(s: seq<Pod>, name: string): seq<Pod> {
    if s == [] then []
    else if s[0].name != name then Deleted(s[1..], name)
    else if |s| == 1 then [s[0]]
    else [s[0]] + Deleted(s[2..], name)
  }

  /** How many namespaces have the name; AddPod adds to all of them. */
  ghost function NamespacesNamed(nss: seq<NamespaceView>, name: string): nat {
    if nss == [] then 0
    else NamespacesNamed(nss[..|nss| - 1], name) + if nss[|nss| - 1].name == name then 1 else 0
  }

  ghost function Listed(p: Option<Pod>): seq<Pod> {
    match p case None => [] case Some(pod) => [pod]
  }

  /** When an operation leaves a coherent cache coherent, whatever the names in the model are. */
  ghost predicate KeepsCoherent(v: ModelView, op: Op) {
    match op
    case AllPods => true
    case AddNamespace(_, _) => true
    case AddNamespaceWithImage(_, pods) => v.cache == None || pods == []
    case AddPod(_, ns) => NamespacesNamed(v.namespaces, ns) == 1
    case RemovePod(podName, ns) =>
      var k := LastNamespace(v.namespaces, ns);
      k.Some? && v.cache.Some? ==> Deleted(v.namespaces[k.value].pods, podName) == Listed(First(v.cache.value, podName))
  }

  // ---------- AddPod ----------

  lemma AddToBack(nss: seq<NamespaceView>, pod: Pod, name: string)
    requires nss != []
    ensures var last := nss[|nss| - 1];
            Flatten(AddTo(nss, pod, name)) ==
            Flatten(AddTo(nss[..|nss| - 1], pod, name)) + if last.name == name then last.pods + [pod] else last.pods
  {
    assert AddTo(nss, pod, name)[..|nss| - 1] == AddTo(nss[..|nss| - 1], pod, name);
  }

  lemma {:induction false} AddedSize(nss: seq<NamespaceView>, pod: Pod, name: string)
    ensures |Flatten(AddTo(nss, pod, name))| == |Flatten(nss)| + NamespacesNamed(nss, name)
  {
    if nss != [] {
      AddToBack(nss, pod, name);
      AddedSize(nss[..|nss| - 1], pod, name);
    }
  }

  lemma {:induction false} AddedNowhere(nss: seq<NamespaceView>, pod: Pod, name: string)
    requires NamespacesNamed(nss, name) == 0
    ensures Flatten(AddTo(nss, pod, name)) == Flatten(nss)
  {
    if nss != [] {
      AddToBack(nss, pod, name);
      AddedNowhere(nss[..|nss| - 1], pod, name);
    }
  }

  lemma {:induction false} AddedOnce(nss: seq<NamespaceView>, pod: Pod, name: string)
    requires NamespacesNamed(nss, name) == 1
    ensures multiset(Flatten(AddTo(nss, pod, name))) == multiset(Flatten(nss)) + multiset{pod}
  {
    AddToBack(nss, pod, name);
    if nss[|nss| - 1].name == name {
      AddedNowhere(nss[..|nss| - 1], pod, name);
    } else {
      AddedOnce(nss[..|nss| - 1], pod, name);
    }
  }

  /** The cache stays coherent exactly when one namespace has the name: neither none nor two. */
  lemma AddPodCoherence(v: ModelView, pod: Pod, ns: string)
    requires Coherent(v) && v.cache.Some?
    ensures Coherent(Step(v, AddPod(pod, ns))) <==> NamespacesNamed(v.namespaces, ns) == 1
  {
    AddedSize(v.namespaces, pod, ns);
    if NamespacesNamed(v.namespaces, ns) == 1 {
      AddedOnce(v.namespaces, pod, ns);
    }
    assert |multiset(v.cache.value)| == |multiset(Flatten(v.namespaces))|;
    assert |multiset(v.cache.value + [pod])| == |v.cache.value| + 1;
    assert |multiset(Flatten(AddTo(v.namespaces, pod, ns)))| == |Flatten(AddTo(v.namespaces, pod, ns))|;
  }

  // ---------- RemovePod ----------

  lemma {:induction false} FirstRemoved(s: seq<Pod>, name: string)
    ensures multiset(WithoutFirst(s, name)) + multiset(Listed(First(s, name))) == multiset(s)
    ensures First(s, name).Some? <==> Named(s, name)
    ensures First(s, name).Some? ==> First(s, name).value in s && First(s, name).value.name == name
    decreases |s|
  {
    if s != [] {
      assert s == [s[0]] + s[1..];
      NamedHead(s[0], s[1..], name);
      if s[0].name != name {
        FirstRemoved(s[1..], name);
      }
    }
  }

  lemma KeptHead(p: Pod, kept: seq<Pod>, gone: seq<Pod>, rest: seq<Pod>)
    requires multiset(kept) + multiset(gone) == multiset(rest)
    ensures multiset([p] + kept) + multiset(gone) == multiset([p] + rest)
  {
    assert multiset([p] + kept) + multiset(gone) == multiset{p} + (multiset(kept) + multiset(gone));
  }

  lemma GoneHead(p: Pod, kept: seq<Pod>, gone: seq<Pod>, rest: seq<Pod>)
    requires multiset(kept) + multiset(gone) == multiset(rest)
    ensures multiset(kept) + multiset([p] + gone) == multiset([p] + rest)
  {
    assert multiset(kept) + multiset([p] + gone) == multiset{p} + (multiset(kept) + multiset(gone));
  }

  lemma {:induction false} SurvivorsAndDeleted(s: seq<Pod>, name: string)
    ensures multiset(Survivors(s, name)) + multiset(Deleted(s, name)) == multiset(s)
    decreases |s|
  {
    if s != [] {
      assert s == [s[0]] + s[1..];
      if s[0].name != name {
        SurvivorsAndDeleted(s[1..], name);
        KeptHead(s[0], Survivors(s[1..], name), Deleted(s[1..], name), s[1..]);
      } else if |s| > 1 {
        SurvivorsAndDeleted(s[2..], name);
        assert s[1..] == [s[1]] + s[2..];
        KeptHead(s[1], Survivors(s[2..], name), Deleted(s[2..], name), s[2..]);
        GoneHead(s[0], [s[1]] + Survivors(s[2..], name), Deleted(s[2..], name), s[1..]);
      }
    }
  }

  lemma Cancel(a: multiset<Pod>, x: multiset<Pod>, b: multiset<Pod>, y: multiset<Pod>)
    requires a + x == b + y
    ensures a == b <==> x == y
  {
    assert x == (a + x) - a && y == (b + y) - b;
    assert a == (a + x) - x && b == (b + y) - y;
  }

  lemma SameList(s: seq<Pod>, p: Option<Pod>)
    ensures multiset(s) == multiset(Listed(p)) <==> s == Listed(p)
  {
    if multiset(s) == multiset(Listed(p)) {
      assert |s| == |multiset(s)| == |Listed(p)|;
      if p.Some? {
        assert s[0] in multiset(Listed(p));
      }
    }
  }

  lemma RemoveCoherence(nss: seq<NamespaceView>, k: nat, cache: seq<Pod>, name: string)
    requires k < |nss| && multiset(cache) == multiset(Flatten(nss))
    ensures var after := Flatten(nss[k := nss[k].(pods := Survivors(nss[k].pods, name))]);
            multiset(WithoutFirst(cache, name)) == multiset(after)
            <==> Deleted(nss[k].pods, name) == Listed(First(cache, name))
  {
    var a, b, c := Flatten(nss[..k]), nss[k].pods, Flatten(nss[k + 1..]);
    FlattenSplit(nss, k);
    FlattenUpdate(nss, k, Survivors(b, name));
    FirstRemoved(cache, name);
    SurvivorsAndDeleted(b, name);
    var after := multiset(a) + multiset(Survivors(b, name)) + multiset(c);
    assert after + multiset(Deleted(b, name)) == multiset(a + b + c) by {
      assert multiset(a + b + c) == multiset(a) + multiset(b) + multiset(c);
    }
    Cancel(multiset(WithoutFirst(cache, name)), multiset(Listed(First(cache, name))), after,
           multiset(Deleted(b, name)));
    SameList(Deleted(b, name), First(cache, name));
  }

  // ---------- Every operation and every run ----------

  /** Each condition is exact, for every coherent model: the cache stays coherent if and only if the condition holds. */
  lemma CoherenceIsExact(v: ModelView, op: Op)
    requires Coherent(v) && !Panics(v, op)
    ensures Coherent(Step(v, op)) <==> KeepsCoherent(v, op)
  {
    match op {
      case AllPods =>
      case AddNamespace(_, _) =>
      case AddNamespaceWithImage(name, pods) =>
        FlattenAppend(v.namespaces, NamespaceView(name, pods));
        if v.cache.Some? {
          assert |multiset(Flatten(v.namespaces) + pods)| == |multiset(v.cache.value)| + |pods|;
        }
      case AddPod(pod, ns) => AddPodCoherence(v, pod, ns);
      case RemovePod(podName, ns) =>
        var k := LastNamespace(v.namespaces, ns);
        if k.Some? {
          RemoveCoherence(v.namespaces, k.value, v.cache.value, podName);
        }
    }
  }

  ghost predicate Runs(v: ModelView, ops: seq<Op>)
    decreases ops
  {
    ops == [] || (!Panics(v, ops[0]) && Runs(Step(v, ops[0]), ops[1..]))
  }

  ghost predicate CoherentThroughout(v: ModelView, ops: seq<Op>)
    requires Runs(v, ops)
    decreases ops
  {
    Coherent(v) && (ops == [] || CoherentThroughout(Step(v, ops[0]), ops[1..]))
  }

  ghost predicate KeepsThroughout(v: ModelView, ops: seq<Op>)
    requires Runs(v, ops)
    decreases ops
  {
    ops == [] || (KeepsCoherent(v, ops[0]) && KeepsThroughout(Step(v, ops[0]), ops[1..]))
  }

  /** Over any run of any model, the cache is coherent all along if and only if every operation meets its condition. */
  lemma {:induction false} RunIsExact(v: ModelView, ops: seq<Op>)
    requires Coherent(v) && Runs(v, ops)
    ensures CoherentThroughout(v, ops) <==> KeepsThroughout(v, ops)
    decreases ops
  {
    if ops != [] {
      CoherenceIsExact(v, ops[0]);
      if KeepsCoherent(v, ops[0]) {
        RunIsExact(Step(v, ops[0]), ops[1..]);
      } else {
        NotThroughout(Step(v, ops[0]), ops[1..]);
      }
    }
  }

  lemma NotThroughout(v: ModelView, ops: seq<Op>)
    requires Runs(v, ops) && !Coherent(v)
    ensures !CoherentThroughout(v, ops)
  {
  }

  // ---------- A name that is used once in the namespace ----------

  lemma {:induction false} DeletedOnce(s: seq<Pod>, name: string)
    requires Once(s, name)
    ensures Deleted(s, name) == Listed(First(s, name))
    decreases |s|
  {
    if s != [] {
      OnceRest(s, name);
      if s[0].name != name {
        DeletedOnce(s[1..], name);
      } else if |s| > 1 {
        DeletedAbsent(s[2..], name);
      }
    }
  }

  lemma {:induction false} DeletedAbsent(s: seq<Pod>, name: string)
    requires !Named(s, name)
    ensures Deleted(s, name) == []
    decreases |s|
  {
    if s != [] {
      assert forall i :: 0 <= i < |s[1..]| ==> s[1..][i] == s[i + 1];
      DeletedAbsent(s[1..], name);
    }
  }

  /**
   * RemovePod picks the namespace by name but the cached pod by pod name alone. If the pod name is used at most once in
   * the namespace, it leaves the cache stale exactly when the first cached pod with the name is not of that namespace.
   */
  lemma RemovePodCoherence(v: ModelView, podName: string, ns: string)
    requires Coherent(v) && v.cache.Some? && LastNamespace(v.namespaces, ns).Some?
    requires Once(v.namespaces[LastNamespace(v.namespaces, ns).value].pods, podName)
    ensures !Panics(v, RemovePod(podName, ns))
    ensures var pods, first := v.namespaces[LastNamespace(v.namespaces, ns).value].pods, First(v.cache.value, podName);
            Coherent(Step(v, RemovePod(podName, ns))) <==> (first.Some? ==> first.value in pods)
  {
    var k := LastNamespace(v.namespaces, ns).value;
    var pods, first := v.namespaces[k].pods, First(v.cache.value, podName);
    OnceSurvivors(pods, podName);
    CoherenceIsExact(v, RemovePod(podName, ns));
    DeletedOnce(pods, podName);
    FirstRemoved(v.cache.value, podName);
    FirstRemoved(pods, podName);
    NamedPart(v.namespaces, k, podName);
    SamePodsNamed(v.cache.value, Flatten(v.namespaces), podName);
    if first.Some? && first.value in pods {
      OneOfName(pods, podName, first.value, First(pods, podName).value);
    }
  }

  lemma OneOfName(s: seq<Pod>, name: string, p: Pod, q: Pod)
    requires Once(s, name) && p in s && q in s && p.name == name == q.name
    ensures p == q
  {
  }

  lemma SamePodsNamed(s: seq<Pod>, t: seq<Pod>, name: string)
    requires multiset(s) == multiset(t)
    ensures Named(s, name) <==> Named(t, name)
  {
    if Named(s, name) {
      var i :| 0 <= i < |s| && s[i].name == name;
      assert s[i] in multiset(t);
    }
    if Named(t, name) {
      var i :| 0 <= i < |t| && t[i].name == name;
      assert t[i] in multiset(s);
    }
  }

  lemma NamedPart(nss: seq<NamespaceView>, k: nat, name: string)
    requires k < |nss|
    ensures Named(nss[k].pods, name) ==> Named(Flatten(nss), name)
  {
    FlattenSplit(nss, k);
    if Named(nss[k].pods, name) {
      var i :| 0 <= i < |nss[k].pods| && nss[k].pods[i].name == name;
      assert Flatten(nss)[|Flatten(nss[..k])| + i].name == name;
    }
  }

  // ---------- Distinct names throughout ----------

  ghost predicate WellNamed(v: ModelView) {
    && (forall i, j :: 0 <= i < j < |v.namespaces| ==> v.namespaces[i].name != v.namespaces[j].name)
    && DistinctNames(Flatten(v.namespaces))
  }

  /** With distinct names a caller need only look for the namespace of the pod. */
  ghost predicate Careful(v: ModelView, op: Op) {
    match op
    case AllPods => true
    case AddNamespace(_, _) => true
    case AddNamespaceWithImage(_, pods) => v.cache == None || pods == []
    case AddPod(_, ns) => LastNamespace(v.namespaces, ns).Some?
    case RemovePod(podName, ns) =>
      var k := LastNamespace(v.namespaces, ns);
      k.Some? && Named(Flatten(v.namespaces), podName) ==> Named(v.namespaces[k.value].pods, podName)
  }

  lemma {:induction false} CountDistinct(nss: seq<NamespaceView>, name: string)
    requires forall i, j :: 0 <= i < j < |nss| ==> nss[i].name != nss[j].name
    ensures NamespacesNamed(nss, name) == if LastNamespace(nss, name).Some? then 1 else 0
  {
    if nss != [] {
      var front := nss[..|nss| - 1];
      CountDistinct(front, name);
      assert forall i :: 0 <= i < |front| ==> front[i] == nss[i];
    }
  }

  lemma CarefulIsExact(v: ModelView, op: Op)
    requires WellNamed(v) && Coherent(v) && !Panics(v, op)
    ensures KeepsCoherent(v, op) <==> Careful(v, op)
  {
    match op {
      case AddPod(_, ns) => CountDistinct(v.namespaces, ns);
      case RemovePod(podName, ns) =>
        var last := LastNamespace(v.namespaces, ns);
        if last.Some? {
          CarefulRemoval(v, podName, ns);
        }
      case _ =>
    }
  }

  lemma CarefulRemoval(v: ModelView, podName: string, ns: string)
    requires WellNamed(v) && Coherent(v) && v.cache.Some? && LastNamespace(v.namespaces, ns).Some?
    ensures KeepsCoherent(v, RemovePod(podName, ns)) <==> Careful(v, RemovePod(podName, ns))
  {
    var k := LastNamespace(v.namespaces, ns).value;
    var pods, first := v.namespaces[k].pods, First(v.cache.value, podName);
    FlattenSplit(v.namespaces, k);
    DistinctParts(Flatten(v.namespaces[..k]), pods, Flatten(v.namespaces[k + 1..]));
    assert Once(pods, podName);
    RemovePodCoherence(v, podName, ns);
    CoherenceIsExact(v, RemovePod(podName, ns));
    FirstRemoved(v.cache.value, podName);
    SamePodsNamed(v.cache.value, Flatten(v.namespaces), podName);
    if first.Some? {
      assert first.value in multiset(v.cache.value);
      assert first.value in Flatten(v.namespaces);
      if Named(pods, podName) {
        OnlyOne(Flatten(v.namespaces[..k]), pods, Flatten(v.namespaces[k + 1..]), first.value);
      } else {
        assert first.value in pods ==> Named(pods, podName);
      }
    }
  }

  lemma OnlyOne(a: seq<Pod>, b: seq<Pod>, c: seq<Pod>, p: Pod)
    requires DistinctNames(a + b + c) && p in a + b + c && Named(b, p.name)
    ensures p in b
  {
    DistinctParts(a, b, c);
    assert p in a ==> Named(a, p.name);
    assert p in c ==> Named(c, p.name);
  }

  lemma DistinctParts(a: seq<Pod>, b: seq<Pod>, c: seq<Pod>)
    requires DistinctNames(a + b + c)
    ensures DistinctNames(a) && DistinctNames(b) && DistinctNames(c)
    ensures forall name :: Named(b, name) ==> !Named(a, name) && !Named(c, name)
  {
    var s := a + b + c;
    assert forall i :: 0 <= i < |a| ==> a[i] == s[i];
    assert forall i :: 0 <= i < |b| ==> b[i] == s[|a| + i];
    assert forall i :: 0 <= i < |c| ==> c[i] == s[|a| + |b| + i];
  }

  /** With distinct names, dropping a pod from its namespace drops it from the whole list and from nothing else. */
  lemma RemoveInPlace(nss: seq<NamespaceView>, k: nat, name: string)
    requires k < |nss| && DistinctNames(Flatten(nss))
    ensures var after := Flatten(nss[k := nss[k].(pods := Survivors(nss[k].pods, name))]);
            after == if Named(nss[k].pods, name) then Without(Flatten(nss), name) else Flatten(nss)
  {
    var a, b, c := Flatten(nss[..k]), nss[k].pods, Flatten(nss[k + 1..]);
    FlattenSplit(nss, k);
    FlattenUpdate(nss, k, Survivors(b, name));
    DistinctParts(a, b, c);
    DistinctSurvivors(b, name);
    WithoutAppend(a + b, c, name);
    WithoutAppend(a, b, name);
    if Named(b, name) {
      WithoutAbsent(a, name);
      WithoutAbsent(c, name);
    } else {
      WithoutAbsent(b, name);
    }
  }

  ghost predicate NewNames(v: ModelView, name: string, pods: seq<Pod>) {
    LastNamespace(v.namespaces, name).None? && DistinctNames(Flatten(v.namespaces) + pods)
  }

  /**
   * What a caller can check before the call: nothing here panics, clashes with a name in use or leaves the cache stale.
   */
  ghost predicate Allowed(v: ModelView, op: Op) {
    && !Panics(v, op) && Careful(v, op)
    && match op
       case AddNamespace(name, pods) => NewNames(v, name, pods)
       case AddNamespaceWithImage(name, pods) => NewNames(v, name, pods)
       case AddPod(pod, ns) => !Named(Flatten(v.namespaces), pod.name)
       case _ => true
  }

  lemma AddInPlace(nss: seq<NamespaceView>, pod: Pod, name: string) returns (a: seq<Pod>, b: seq<Pod>, c: seq<Pod>)
    requires NamespacesNamed(nss, name) == 1
    ensures LastNamespace(nss, name).Some?
    ensures Flatten(nss) == a + b + c && c == Flatten(nss[LastNamespace(nss, name).value + 1..])
    ensures Flatten(AddTo(nss, pod, name)) == a + (b + [pod]) + c
  {
    NamedOnce(nss, name);
    var k := LastNamespace(nss, name).value;
    assert AddTo(nss, pod, name) == nss[k := nss[k].(pods := nss[k].pods + [pod])];
    FlattenSplit(nss, k);
    FlattenUpdate(nss, k, nss[k].pods + [pod]);
    a, b, c := Flatten(nss[..k]), nss[k].pods, Flatten(nss[k + 1..]);
  }

  lemma {:induction false} NamedOnce(nss: seq<NamespaceView>, name: string)
    ensures NamespacesNamed(nss, name) == 0 ==> LastNamespace(nss, name) == None
    ensures NamespacesNamed(nss, name) == 1 ==>
              LastNamespace(nss, name).Some?
              && forall i :: 0 <= i < |nss| && nss[i].name == name ==> i == LastNamespace(nss, name).value
  {
    if nss != [] {
      var front := nss[..|nss| - 1];
      NamedOnce(front, name);
      assert forall i :: 0 <= i < |front| ==> front[i] == nss[i];
    }
  }

  lemma DistinctInsert(a: seq<Pod>, b: seq<Pod>, p: Pod)
    requires DistinctNames(a + b) && !Named(a + b, p.name)
    ensures DistinctNames(a + [p] + b)
  {
    var s, t := a + [p] + b, a + b;
    forall i, j | 0 <= i < j < |s|
      ensures s[i].name != s[j].name
    {
      var i', j' := if i <= |a| then i else i - 1, if j <= |a| then j else j - 1;
      assert i != |a| ==> s[i] == t[i'];
      assert j != |a| ==> s[j] == t[j'];
    }
  }

  lemma {:induction false} DistinctWithout(s: seq<Pod>, name: string)
    requires DistinctNames(s)
    ensures DistinctNames(Without(s, name))
    ensures forall p :: p in Without(s, name) ==> p in s
  {
    if s != [] {
      var front, last := s[..|s| - 1], s[|s| - 1];
      DistinctWithout(front, name);
      forall i | 0 <= i < |Without(front, name)|
        ensures Without(front, name)[i].name != last.name
      {
        assert Without(front, name)[i] in front;
      }
    }
  }

  lemma AddPodKeepsNames(v: ModelView, pod: Pod, ns: string)
    requires WellNamed(v) && Allowed(v, AddPod(pod, ns))
    ensures WellNamed(Step(v, AddPod(pod, ns)))
  {
    CountDistinct(v.namespaces, ns);
    var a, b, c := AddInPlace(v.namespaces, pod, ns);
    assert a + (b + [pod]) + c == (a + b) + [pod] + c;
    DistinctInsert(a + b, c, pod);
  }

  lemma RemovePodKeepsNames(v: ModelView, podName: string, ns: string)
    requires WellNamed(v) && Allowed(v, RemovePod(podName, ns))
    ensures WellNamed(Step(v, RemovePod(podName, ns)))
  {
    match LastNamespace(v.namespaces, ns) {
      case None =>
      case Some(k) =>
        RemoveInPlace(v.namespaces, k, podName);
        DistinctWithout(Flatten(v.namespaces), podName);
    }
  }

  lemma AddNamespaceKeepsNames(v: ModelView, name: string, pods: seq<Pod>, cache: Option<seq<Pod>>)
    requires WellNamed(v) && Allowed(v, AddNamespace(name, pods))
    ensures WellNamed(ModelView(v.namespaces + [NamespaceView(name, pods)], cache))
  {
    FlattenAppend(v.namespaces, NamespaceView(name, pods));
  }

  lemma StepKeepsNames(v: ModelView, op: Op)
    requires WellNamed(v) && Allowed(v, op)
    ensures WellNamed(Step(v, op))
  {
    match op {
      case AllPods =>
      case AddNamespace(name, pods) => AddNamespaceKeepsNames(v, name, pods, None);
      case AddNamespaceWithImage(name, pods) => AddNamespaceKeepsNames(v, name, pods, v.cache);
      case AddPod(pod, ns) => AddPodKeepsNames(v, pod, ns);
      case RemovePod(podName, ns) => RemovePodKeepsNames(v, podName, ns);
    }
  }

  ghost predicate RunAllowed(v: ModelView, ops: seq<Op>)
    decreases ops
  {
    ops == [] || (Allowed(v, ops[0]) && RunAllowed(Step(v, ops[0]), ops[1..]))
  }

  ghost function Run(v: ModelView, ops: seq<Op>): ModelView
    requires RunAllowed(v, ops)
    decreases ops
  {
    if ops == [] then v else Run(Step(v, ops[0]), ops[1..])
  }

  /** For every allowed run, AllPods afterwards returns a permutation of the pods of the namespaces. */
  lemma {:induction false} RunKeepsCoherent(v: ModelView, ops: seq<Op>)
    requires WellNamed(v) && Coherent(v) && RunAllowed(v, ops)
    ensures WellNamed(Run(v, ops))
    ensures multiset(FillCache(Run(v, ops)).cache.value) == multiset(Flatten(Run(v, ops).namespaces))
    decreases ops
  {
    if ops != [] {
      StepKeepsNames(v, ops[0]);
      CarefulIsExact(v, ops[0]);
      CoherenceIsExact(v, ops[0]);
      RunKeepsCoherent(Step(v, ops[0]), ops[1..]);
    }
  }

  // ---------- The order of the cache ----------

  ghost predicate Exact(v: ModelView) {
    v.cache.Some? ==> v.cache.value == Flatten(v.namespaces)
  }

  ghost predicate Only(s: seq<Pod>, p: Pod) {
    forall q :: q in s ==> q == p
  }

  lemma {:induction false} Rotated(s: seq<Pod>, p: Pod)
    ensures s + [p] == [p] + s <==> Only(s, p)
  {
    if s != [] {
      var rest := s[1..];
      Rotated(rest, p);
      if s + [p] == [p] + s {
        assert s[0] == ([p] + s)[0] == p;
        assert rest + [p] == (s + [p])[1..] == s == [p] + rest;
        assert forall q :: q in s ==> q == s[0] || q in rest;
      }
      if Only(s, p) {
        assert s[0] in s && forall q :: q in rest ==> q in s;
        assert s == [p] + rest;
        assert s + [p] == [p] + (rest + [p]);
      }
    }
  }

  lemma AtTheEnd(a: seq<Pod>, c: seq<Pod>, pod: Pod)
    ensures a + c + [pod] == a + ([pod] + c) <==> c + [pod] == [pod] + c
  {
    assert a + c + [pod] == a + (c + [pod]);
    assert (a + (c + [pod]))[|a|..] == c + [pod] && (a + ([pod] + c))[|a|..] == [pod] + c;
  }

  /**
   * Adding a pod keeps the cache in namespace order exactly when one namespace has the name and no other pod comes
   * after it.
   */
  lemma AddPodExactness(v: ModelView, pod: Pod, ns: string)
    requires Exact(v) && v.cache.Some?
    ensures Exact(Step(v, AddPod(pod, ns))) <==>
            NamespacesNamed(v.namespaces, ns) == 1 && LastNamespace(v.namespaces, ns).Some?
            && Only(Flatten(v.namespaces[LastNamespace(v.namespaces, ns).value + 1..]), pod)
  {
    AddedSize(v.namespaces, pod, ns);
    if NamespacesNamed(v.namespaces, ns) == 1 {
      var a, b, c := AddInPlace(v.namespaces, pod, ns);
      Rotated(c, pod);
      AtTheEnd(a + b, c, pod);
      assert a + (b + [pod]) + c == (a + b) + ([pod] + c);
    } else {
      assert |v.cache.value + [pod]| != |Flatten(AddTo(v.namespaces, pod, ns))|;
    }
  }

  ghost predicate KeepsOrder(v: ModelView, op: Op) {
    op.AddPod? ==> LastNamespace(v.namespaces, op.namespaceName) == Some(|v.namespaces| - 1)
  }

  ghost predicate RunKeepsOrder(v: ModelView, ops: seq<Op>)
    requires RunAllowed(v, ops)
    decreases ops
  {
    ops == [] || (KeepsOrder(v, ops[0]) && RunKeepsOrder(Step(v, ops[0]), ops[1..]))
  }

  lemma ExactRemoval(nss: seq<NamespaceView>, k: nat, name: string)
    requires k < |nss| && DistinctNames(Flatten(nss))
    requires Named(Flatten(nss), name) ==> Named(nss[k].pods, name)
    ensures WithoutFirst(Flatten(nss), name) == Flatten(nss[k := nss[k].(pods := Survivors(nss[k].pods, name))])
  {
    RemoveInPlace(nss, k, name);
    DistinctSurvivors(Flatten(nss), name);
    if !Named(nss[k].pods, name) {
      SurvivorsAbsent(Flatten(nss), name);
    }
  }

  lemma StepKeepsExact(v: ModelView, op: Op)
    requires WellNamed(v) && Exact(v) && Allowed(v, op) && KeepsOrder(v, op)
    ensures Exact(Step(v, op))
  {
    match op {
      case AllPods =>
      case AddNamespace(_, _) =>
      case AddNamespaceWithImage(name, pods) => FlattenAppend(v.namespaces, NamespaceView(name, pods));
      case AddPod(pod, ns) =>
        CountDistinct(v.namespaces, ns);
        AddPodExactness(v, pod, ns);
      case RemovePod(podName, ns) =>
        var k := LastNamespace(v.namespaces, ns);
        if k.Some? {
          ExactRemoval(v.namespaces, k.value, podName);
        }
    }
  }

  /** If pods are only ever added to the last namespace, AllPods is the exact concatenation. */
  lemma {:induction false} RunKeepsExact(v: ModelView, ops: seq<Op>)
    requires WellNamed(v) && Exact(v) && RunAllowed(v, ops) && RunKeepsOrder(v, ops)
    ensures FillCache(Run(v, ops)).cache.value == Flatten(Run(v, ops).namespaces)
    decreases ops
  {
    if ops != [] {
      StepKeepsNames(v, ops[0]);
      StepKeepsExact(v, ops[0]);
      RunKeepsExact(Step(v, ops[0]), ops[1..]);
    }
  }

  // ---------- Stale caches ----------

  lemma TwoPods(p: Pod, q: Pod)
    ensures WithoutFirst([p, q], p.name) == [q] && Survivors([q], p.name) == if q.name == p.name then [] else [q]
  {
    var cache, pods := [p, q], [q];
    assert cache[0] == p && cache[1..] == [q] && pods[0] == q && pods[1..] == [];
    assert WithoutFirst(cache, p.name) == cache[1..];
    assert Survivors(pods[1..], p.name) == [];
  }

  /** With distinct pod names, naming the wrong namespace drops an existing pod from the cache only. */
  lemma WrongNamespace(p: Pod, q: Pod) returns (v: ModelView)
    requires p.name != q.name
    ensures v == ModelView([NamespaceView("a", [p]), NamespaceView("b", [q])], Some([p, q]))
    ensures WellNamed(v) && Coherent(v) && !Panics(v, RemovePod(p.name, "b"))
    ensures Step(v, RemovePod(p.name, "b")) == v.(cache := Some([q])) && !RemoveFails(v, p.name, "b")
  {
    v := ModelView([NamespaceView("a", [p]), NamespaceView("b", [q])], Some([p, q]));
    TwoNamespaces([p], [q]);
    assert LastNamespace(v.namespaces, "b") == Some(1);
    TwoPods(p, q);
    assert v.namespaces[1 := v.namespaces[1].(pods := [q])] == v.namespaces;
    assert v.cache.value[0].name == p.name;
  }

  lemma TwoNamespaces(a: seq<Pod>, b: seq<Pod>)
    ensures Flatten([NamespaceView("a", a), NamespaceView("b", b)]) == a + b
  {
    FlattenOne(NamespaceView("a", a));
    FlattenAppend([NamespaceView("a", a)], NamespaceView("b", b));
    assert [NamespaceView("a", a)] + [NamespaceView("b", b)] == [NamespaceView("a", a), NamespaceView("b", b)];
  }

  /**
   * With a pod name shared between namespaces, as NewModel builds them, even the right namespace drops the wrong pod.
   */
  lemma SharedName(p: Pod, q: Pod) returns (v: ModelView)
    requires p != q && p.name == q.name
    ensures v == ModelView([NamespaceView("a", [p]), NamespaceView("b", [q])], Some([p, q]))
    ensures Coherent(v) && !Panics(v, RemovePod(q.name, "b"))
    ensures Step(v, RemovePod(q.name, "b"))
            == ModelView([NamespaceView("a", [p]), NamespaceView("b", [])], Some([q]))
    ensures !Coherent(Step(v, RemovePod(q.name, "b")))
  {
    v := ModelView([NamespaceView("a", [p]), NamespaceView("b", [q])], Some([p, q]));
    TwoNamespaces([p], [q]);
    assert LastNamespace(v.namespaces, "b") == Some(1);
    TwoPods(p, q);
    assert v.namespaces[1 := v.namespaces[1].(pods := [])] == [NamespaceView("a", [p]), NamespaceView("b", [])];
    TwoNamespaces([p], []);
    OtherPod(p, q);
  }

  lemma OtherPod(p: Pod, q: Pod)
    requires p != q
    ensures multiset([q]) != multiset([p] + [])
  {
    assert multiset([q])[q] == 1 && multiset([p] + [])[q] == 0;
  }

  /** Three pods, the first and the last with the name: the loop slices out of bounds. */
  lemma OutOfBounds(p: Pod, q: Pod, r: Pod)
    requires p.name == r.name != q.name
    ensures RangePanics([p, q, r], p.name)
  {
    assert [p, q, r][..2] == [p, q];
    assert [p, q][0].name == p.name;
  }

  /** Two neighbours with the name: the second slides under the index and stays. */
  lemma NeighbourStays(p: Pod, q: Pod, r: Pod)
    requires p.name == q.name != r.name
    ensures !RangePanics([p, q, r], p.name) && Survivors([p, q, r], p.name) == [q, r]
  {
    assert [p, q, r][2..] == [r] && Survivors([r], p.name) == [r];
    assert [p, q, r][..2] == [p, q];
  }

  /** No namespace has the name: only the cache gets the pod. */
  lemma AddedToNoNamespace(p: Pod, q: Pod) returns (v: ModelView)
    ensures v == ModelView([NamespaceView("a", [p])], Some([p])) && Coherent(v)
    ensures Step(v, AddPod(q, "b")) == v.(cache := Some([p, q])) && !Coherent(Step(v, AddPod(q, "b")))
  {
    v := ModelView([NamespaceView("a", [p])], Some([p]));
    FlattenOne(NamespaceView("a", [p]));
    assert AddTo(v.namespaces, q, "b") == v.namespaces && [p] + [q] == [p, q];
    assert v.namespaces + [] == v.namespaces;
    CountTwo(v.namespaces, [], "b");
    AddPodCoherence(v, q, "b");
  }

  lemma CountTwo(a: seq<NamespaceView>, b: seq<NamespaceView>, name: string)
    requires |a| == 1 && |b| <= 1
    ensures NamespacesNamed(a + b, name)
            == (if a[0].name == name then 1 else 0) + if b != [] && b[0].name == name then 1 else 0
  {
    if b == [] {
      assert a + b == a && a[..0] == [];
    } else {
      assert (a + b)[..1] == a && a[..0] == [] && |a + b| == 2;
      assert NamespacesNamed(a, name) == if a[0].name == name then 1 else 0;
    }
  }

  /** Two namespaces have the name: the cache gets the pod once and they twice. */
  lemma AddedToTwo(p: Pod, q: Pod) returns (v: ModelView)
    ensures v == ModelView([NamespaceView("a", [p]), NamespaceView("a", [])], Some([p])) && Coherent(v)
    ensures Step(v, AddPod(q, "a"))
            == ModelView([NamespaceView("a", [p, q]), NamespaceView("a", [q])], Some([p, q]))
    ensures !Coherent(Step(v, AddPod(q, "a")))
  {
    var first, second := [NamespaceView("a", [p])], [NamespaceView("a", [])];
    v := ModelView(first + second, Some([p]));
    FlattenOne(NamespaceView("a", [p]));
    FlattenAppend(first, NamespaceView("a", []));
    assert [p] + [q] == [p, q] && [] + [q] == [q];
    assert AddTo(v.namespaces, q, "a") == [NamespaceView("a", [p, q]), NamespaceView("a", [q])];
    CountTwo(first, second, "a");
    AddPodCoherence(v, q, "a");
  }

  /** The cache is filled: it does not learn of the pods of a namespace added with an image. */
  lemma AddedBehindCache(p: Pod, q: Pod) returns (v: ModelView)
    ensures v == ModelView([NamespaceView("a", [p])], Some([p])) && Coherent(v)
    ensures var op := AddNamespaceWithImage("b", [q]);
            Step(v, op) == ModelView([NamespaceView("a", [p]), NamespaceView("b", [q])], Some([p]))
            && !Coherent(Step(v, op))
  {
    v := ModelView([NamespaceView("a", [p])], Some([p]));
    FlattenOne(NamespaceView("a", [p]));
    CoherenceIsExact(v, AddNamespaceWithImage("b", [q]));
    assert v.namespaces + [NamespaceView("b", [q])] == [NamespaceView("a", [p]), NamespaceView("b", [q])];
  }
}
