// The cluster model and its lazily filled caches (pkg/matrix/model.go).
module Models {
  import opened Text
  import opened Entities
  import opened ModelSpec
  import opened Slices
  import opened Namespaces

  method ExtractPortProtocols(namespaces: seq<Namespace>, ghost views: seq<NamespaceView>)
    returns (ports: seq<int>, protocols: seq<string>)
    requires |views| == |namespaces|
    requires forall i :: 0 <= i < |namespaces| ==>
             namespaces[i].pods.Valid() && views[i].pods == namespaces[i].pods.Contents()
    ensures Extracted(ports, protocols, ContainersOf(Flatten(views)))
  {
    ports, protocols := [], [];
    for i := 0 to |namespaces|
      invariant Extracted(ports, protocols, ContainersOf(Flatten(views[..i])))
    {
      ports, protocols := ExtractFromPods(namespaces[i].pods.Contents(), ports, protocols,
                                          ContainersOf(Flatten(views[..i])));
      assert views[..i + 1][..i] == views[..i];
      ContainersAppend(Flatten(views[..i]), views[i].pods);
    }
    assert views[..|namespaces|] == views;
  }

  lemma {:induction false} ContainersAppend(a: seq<Pod>, b: seq<Pod>)
    ensures ContainersOf(a + b) == ContainersOf(a) + ContainersOf(b)
  {
    if b == [] {
      assert a + b == a;
    } else {
      ContainersAppend(a, b[..|b| - 1]);
      assert (a + b)[..|a + b| - 1] == a + b[..|b| - 1];
    }
  }

  // Pods that name no image get the program's own server, whose command line is not modelled.
  function NoCommand(port: int, protocol: string): seq<string> {
    []
  }

  /** The namespaces after AddPod's loop body has run for one of them. */
  ghost function AddToOneOf(views: seq<NamespaceView>, k: nat, pod: Pod, name: string): (r: seq<NamespaceView>)
    requires k < |views|
    ensures |r| == |views|
  {
    if views[k].name == name then views[k := views[k].(pods := views[k].pods + [pod])] else views
  }

  ghost function AddToFirst(views: seq<NamespaceView>, n: nat, pod: Pod, name: string): (r: seq<NamespaceView>)
    requires n <= |views|
    ensures |r| == |views|
  {
    if n == 0 then views else AddToOneOf(AddToFirst(views, n - 1, pod, name), n - 1, pod, name)
  }

  lemma {:induction false} AddToFirstIs(views: seq<NamespaceView>, n: nat, pod: Pod, name: string)
    requires n <= |views|
    ensures forall i :: 0 <= i < |views| ==>
              AddToFirst(views, n, pod, name)[i] == if i < n then AddTo(views, pod, name)[i] else views[i]
  {
    if n > 0 {
      AddToFirstIs(views, n - 1, pod, name);
    }
  }

  lemma {:induction false} FlattenMembers(views: seq<NamespaceView>)
    ensures forall p :: p in Flatten(views) ==> exists i :: 0 <= i < |views| && p in views[i].pods
  {
    if views != [] {
      FlattenMembers(views[..|views| - 1]);
      forall p | p in Flatten(views)
        ensures exists i :: 0 <= i < |views| && p in views[i].pods
      {
        if p in views[|views| - 1].pods {
        } else {
          var front := views[..|views| - 1];
          assert p in Flatten(front);
          var i :| 0 <= i < |front| && p in front[i].pods;
          assert p in views[i].pods;
        }
      }
    }
  }

  lemma AddToAll(views: seq<NamespaceView>, pod: Pod, name: string)
    ensures AddToFirst(views, |views|, pod, name) == AddTo(views, pod, name)
  {
    AddToFirstIs(views, |views|, pod, name);
  }

  /** The namespaces after RemovePod's delete loop has run over one of them. */
  ghost function RemoveFromOne(views: seq<NamespaceView>, k: nat, podName: string): seq<NamespaceView>
    requires k < |views|
  {
    views[k := views[k].(pods := Survivors(views[k].pods, podName))]
  }

  /** What NewModel puts into one namespace. */
  ghost predicate BuiltNamespace(view: NamespaceView, name: string, podNames: seq<string>, ports: seq<int>,
                                 protocols: seq<string>)
    reads view.pods
  {
    && view.name == name && |view.pods| == |podNames|
    && forall j :: 0 <= j < |podNames| ==>
         Built(view.pods[j], name, podNames[j], ContainersFor(ports, protocols, "", NoCommand))
  }

  method ResetEach(list: seq<Pod>)
    modifies list`externalIPs, list`skipProbe, list`serviceName, list`clusterIP, list`toPort, list`hostNetwork
    ensures forall p :: p in list ==>
              && p.externalIPs == [] && !p.skipProbe && p.serviceName == "" && p.clusterIP == "" && p.toPort == 0
              && !p.hostNetwork
  {
    for i := 0 to |list|
      invariant forall k :: 0 <= k < i ==>
                  && list[k].externalIPs == [] && !list[k].skipProbe && list[k].serviceName == ""
                  && list[k].clusterIP == "" && list[k].toPort == 0 && !list[k].hostNetwork
    {
      list[i].Reset();
    }
  }

  /** The loop of NewModel. */
  method NewNamespaces(namespaceNames: seq<string>, podNames: seq<string>, ports: seq<int>, protocols: seq<string>)
    returns (nss: seq<Namespace>, ghost views: seq<NamespaceView>)
    ensures |nss| == |views| == |namespaceNames| && fresh(nss)
    ensures forall i :: 0 <= i < |nss| ==>
              fresh(nss[i].pods.arr) && nss[i].pods.Valid()
                && views[i] == NamespaceView(nss[i].name, nss[i].pods.Contents())
    ensures forall i, j :: 0 <= i < j < |nss| ==> nss[i] != nss[j] && nss[i].pods.arr != nss[j].pods.arr
    ensures forall i :: 0 <= i < |nss| ==> fresh(views[i].pods)
    ensures forall i :: 0 <= i < |nss| ==> BuiltNamespace(views[i], namespaceNames[i], podNames, ports, protocols)
  {
    nss, views := [], [];
    for k := 0 to |namespaceNames|
      invariant |nss| == |views| == k && fresh(nss)
      invariant forall i :: 0 <= i < k ==>
                  fresh(nss[i].pods.arr) && nss[i].pods.Valid()
                    && views[i] == NamespaceView(nss[i].name, nss[i].pods.Contents())
      invariant forall i, j :: 0 <= i < j < k ==> nss[i] != nss[j] && nss[i].pods.arr != nss[j].pods.arr
      invariant forall i :: 0 <= i < k ==> fresh(views[i].pods)
      invariant forall i :: 0 <= i < k ==> BuiltNamespace(views[i], namespaceNames[i], podNames, ports, protocols)
    {
      var ns := NewNamespaceWithPods(namespaceNames[k], podNames, ports, protocols, "", NoCommand);
      nss, views := nss + [ns], views + [NamespaceView(ns.name, ns.pods.Contents())];
    }
  }

  class Model {
    // The model as a value; Valid() ties it to the slices.
    ghost var content: ModelView

    var pods: Option<Slice>
    var ports: Option<seq<int>>
    var protocols: Option<seq<string>>
    var namespaces: seq<Namespace>

    ghost function NamespaceArrays(): set<array<Pod?>>
      reads this`namespaces, namespaces
    {
      set ns | ns in namespaces :: ns.pods.arr
    }

    ghost function Arrays(): set<array<Pod?>>
      reads this, namespaces
    {
      NamespaceArrays() + (if pods.Some? then {pods.value.arr} else {})
    }

    /** Slices of different namespaces, and the cache, never share an array. */
    ghost predicate Valid()
      reads this, namespaces, Arrays()
    {
      && |content.namespaces| == |namespaces|
      && (forall i :: 0 <= i < |namespaces| ==>
            namespaces[i].pods.Valid()
            && content.namespaces[i] == NamespaceView(namespaces[i].name, namespaces[i].pods.Contents()))
      && (forall i, j :: 0 <= i < j < |namespaces| ==>
            namespaces[i] != namespaces[j] && namespaces[i].pods.arr != namespaces[j].pods.arr)
      && (content.cache.Some? <==> pods.Some?)
      && (pods.Some? ==>
            pods.value.Valid() && content.cache.value == pods.value.Contents()
            && forall i :: 0 <= i < |namespaces| ==> namespaces[i].pods.arr != pods.value.arr)
    }

    /** NewModel: every namespace gets pods with the same names. */
    constructor (namespaceNames: seq<string>, podNames: seq<string>, ports: seq<int>, protocols: seq<string>)
      ensures Valid() && content.cache == None && this.ports == None && this.protocols == None
      ensures fresh(namespaces) && fresh(Arrays())
      ensures forall i :: 0 <= i < |content.namespaces| ==> fresh(content.namespaces[i].pods)
      ensures |content.namespaces| == |namespaceNames|
      ensures forall i :: 0 <= i < |namespaceNames| ==>
                BuiltNamespace(content.namespaces[i], namespaceNames[i], podNames, ports, protocols)
    {
      var nss;
      ghost var views;
      nss, views := NewNamespaces(namespaceNames, podNames, ports, protocols);
      this.namespaces, this.content := nss, ModelView(views, None);
      this.pods, this.ports, this.protocols := None, None, None;
    }

    /** The loop of AllPods. */
    method ConcatenatePods() returns (list: Slice)
      requires Valid()
      ensures fresh(list.arr) && list.Valid() && list.Contents() == Flatten(content.namespaces)
    {
      list := Empty();
      ghost var views := content.namespaces;
      for i := 0 to |namespaces|
        invariant fresh(list.arr) && list.Valid()
        invariant list.Contents() == Flatten(views[..i])
      {
        assert views[..i + 1][..i] == views[..i];
        assert views[i].pods == namespaces[i].pods.Contents();
        list := AppendAll(list, namespaces[i].pods);
      }
      assert views[..|namespaces|] == views;
    }

    method FillPods()
      requires Valid() && pods == None
      modifies this`pods, this`content
      ensures Valid() && content == FillCache(old(content)) && pods.Some? && fresh(pods.value.arr)
    {
      var list := ConcatenatePods();
      pods := Some(list);
      content := FillCache(content);
    }

    /** Fills the cache if it is empty and hands out a slice over the cache's own array. */
    method AllPods() returns (all: Slice)
      requires Valid()
      modifies this`pods, this`content
      ensures Valid() && content == FillCache(old(content)) && pods == Some(all)
      ensures old(pods).Some? ==> pods == old(pods)
      ensures old(pods).None? ==> fresh(all.arr)
      ensures NamespaceArrays() == old(NamespaceArrays())
    {
      if pods == None {
        FillPods();
      }
      all := pods.value;
    }

    /** Appends a namespace and drops the pod cache. */
    method AddNamespace(name: string, podNames: seq<string>, ports: seq<int>, protocols: seq<string>, image: string,
                        serve: Serve)
      returns (ns: Namespace)
      requires Valid()
      modifies this`namespaces, this`pods, this`content
      ensures Valid() && fresh(ns) && ns.pods.Valid() && |ns.pods.Contents()| == |podNames|
      ensures content == Step(old(content), Op.AddNamespace(name, ns.pods.Contents()))
      ensures forall i :: 0 <= i < |podNames| ==>
                fresh(ns.pods.Contents()[i])
                && Built(ns.pods.Contents()[i], name, podNames[i], ContainersFor(ports, protocols, image, serve))
    {
      ns := NewNamespaceWithPods(name, podNames, ports, protocols, image, serve);
      namespaces := namespaces + [ns];
      pods := None;
      content := Step(content, Op.AddNamespace(name, ns.pods.Contents()));
    }

    /** Appends a namespace but leaves the pod cache as it is. */
    method AddNamespaceWithImageAndCommands(name: string, podNames: seq<string>, ports: seq<int>,
                                            protocols: seq<string>, image: string, commands: seq<string>)
      returns (ns: Namespace)
      requires Valid()
      modifies this`namespaces, this`content
      ensures Valid() && fresh(ns) && ns.pods.Valid() && |ns.pods.Contents()| == |podNames|
      ensures content == Step(old(content), Op.AddNamespaceWithImage(name, ns.pods.Contents()))
      ensures forall i :: 0 <= i < |podNames| ==>
                fresh(ns.pods.Contents()[i])
                && Built(ns.pods.Contents()[i], name, podNames[i],
                         ContainersFor(ports, protocols, image, (_, _) => commands))
    {
      ns := NewNamespaceWithPods(name, podNames, ports, protocols, image, (_, _) => commands);
      namespaces := namespaces + [ns];
      content := Step(content, Op.AddNamespaceWithImage(name, ns.pods.Contents()));
    }

    /** The body of AddPod's loop. */
    method AddIfNamed(k: nat, pod: Pod, namespaceName: string)
      requires Valid() && k < |namespaces|
      modifies namespaces[k], namespaces[k].pods.arr, this`content
      ensures Valid()
      ensures content == ModelView(AddToOneOf(old(content).namespaces, k, pod, namespaceName), old(content).cache)
      ensures namespaces == old(namespaces)
      ensures forall i :: 0 <= i < |namespaces| && i != k ==> namespaces[i].pods == old(namespaces[i].pods)
    {
      if namespaces[k].name == namespaceName {
        var longer := Append(namespaces[k].pods, pod);
        namespaces[k].pods := longer;
        ghost var view := NamespaceView(namespaceName, content.namespaces[k].pods + [pod]);
        content := content.(namespaces := content.namespaces[k := view]);
      }
    }

    /** The loop of AddPod. */
    method AddToNamespaces(pod: Pod, namespaceName: string)
      requires Valid()
      modifies this`content, namespaces, NamespaceArrays()
      ensures Valid()
      ensures content
              == ModelView(AddToFirst(old(content).namespaces, |namespaces|, pod, namespaceName), old(content).cache)
    {
      ghost var views, cache := content.namespaces, content.cache;
      for i := 0 to |namespaces|
        invariant Valid()
        invariant forall k :: i <= k < |namespaces| ==> namespaces[k].pods == old(namespaces[k].pods)
        invariant content == ModelView(AddToFirst(views, i, pod, namespaceName), cache)
      {
        AddIfNamed(i, pod, namespaceName);
      }
    }

    method AddToEach(pod: Pod, namespaceName: string)
      requires Valid()
      modifies this`content, namespaces, NamespaceArrays()
      ensures Valid() && content == ModelView(AddTo(old(content).namespaces, pod, namespaceName), old(content).cache)
    {
      AddToAll(content.namespaces, pod, namespaceName);
      AddToNamespaces(pod, namespaceName);
    }

    method AddToCache(pod: Pod)
      requires Valid() && pods.Some?
      modifies this`pods, this`content, pods.value.arr
      ensures Valid() && content == old(content).(cache := Some(old(content).cache.value + [pod]))
      ensures namespaces == old(namespaces)
      ensures forall i :: 0 <= i < |namespaces| ==> namespaces[i].pods == old(namespaces[i].pods)
    {
      var cache := Append(pods.value, pod);
      pods := Some(cache);
      content := content.(cache := Some(content.cache.value + [pod]));
    }

    /** Dereferences the cache, so AllPods must have filled it. */
    method AddPod(pod: Pod, namespaceName: string)
      requires Valid() && pods.Some?
      modifies this`pods, this`content, namespaces, Arrays()
      ensures Valid() && content == Step(old(content), Op.AddPod(pod, namespaceName))
    {
      AddToCache(pod);
      AddToEach(pod, namespaceName);
    }

    /** Replaces the pods of one namespace by what its delete loop leaves. */
    method RemoveFromNamespace(k: nat, podName: string)
      requires Valid() && k < |namespaces| && !RangePanics(content.namespaces[k].pods, podName)
      modifies namespaces[k], namespaces[k].pods.arr, this`content
      ensures namespaces == old(namespaces) && Valid() && namespaces[k].pods.arr == old(namespaces[k].pods.arr)
      ensures content == ModelView(RemoveFromOne(old(content).namespaces, k, podName), old(content).cache)
      ensures forall i :: 0 <= i < |namespaces| && i != k ==> namespaces[i].pods == old(namespaces[i].pods)
    {
      var survivors, panicked := DeleteWhileRanging(namespaces[k].pods, podName);
      namespaces[k].pods := survivors;
      content := ModelView(RemoveFromOne(content.namespaces, k, podName), content.cache);
    }

    method RemoveFromCache(podName: string) returns (found: bool)
      requires Valid() && pods.Some?
      modifies this`pods, this`content, pods.value.arr
      ensures namespaces == old(namespaces) && Valid() && pods.Some? && pods.value.arr == old(pods.value.arr)
      ensures found <==> Named(old(content).cache.value, podName)
      ensures content == old(content).(cache := Some(WithoutFirst(old(content).cache.value, podName)))
      ensures found ==> SeenShifted(pods.value, old(content).cache.value)
    {
      var cache;
      cache, found := DeleteFirst(pods.value, podName);
      pods := Some(cache);
      content := content.(cache := Some(cache.Contents()));
    }

    /** The search loop does not stop at the first namespace with the name. */
    method FindNamespace(name: string) returns (found: Option<nat>)
      requires Valid()
      ensures found == LastNamespace(content.namespaces, name)
    {
      found := None;
      ghost var views := content.namespaces;
      for i := 0 to |namespaces|
        invariant found == LastNamespace(views[..i], name)
      {
        assert views[..i + 1][..i] == views[..i];
        if namespaces[i].name == name {
          found := Some(i);
        }
      }
      assert views[..|namespaces|] == views;
    }

    /** What RemovePod does once it has the namespace. */
    method RemoveAt(k: nat, podName: string) returns (found: bool)
      requires Valid() && pods.Some? && k < |namespaces| && !RangePanics(content.namespaces[k].pods, podName)
      modifies this`pods, this`content, namespaces[k], Arrays()
      ensures Valid() && pods.Some? && pods.value.arr == old(pods.value.arr)
      ensures namespaces == old(namespaces) && Arrays() == old(Arrays())
      ensures found <==> Named(old(content).cache.value, podName)
      ensures content == ModelView(RemoveFromOne(old(content).namespaces, k, podName),
                                   Some(WithoutFirst(old(content).cache.value, podName)))
      ensures found ==> SeenShifted(pods.value, old(content).cache.value)
    {
      ghost var cached := content.cache.value;
      RemoveFromNamespace(k, podName);
      found := RemoveFromCache(podName);
    }

    /** What RemovePod does once it has searched for the namespace. */
    method RemoveIfFound(found: Option<nat>, podName: string, ghost namespaceName: string, ghost before: ModelView)
      returns (failed: bool)
      requires Valid() && content == before && LastNamespace(before.namespaces, namespaceName) == found
      requires !Panics(before, Op.RemovePod(podName, namespaceName))
      modifies this`pods, this`content, namespaces, Arrays()
      ensures Valid() && content == Step(before, Op.RemovePod(podName, namespaceName))
      ensures failed <==> RemoveFails(before, podName, namespaceName)
      ensures namespaces == old(namespaces) && Arrays() == old(Arrays())
      ensures !failed ==>
                before.cache.Some? && pods.Some? && pods.value.arr == old(pods.value.arr)
                && SeenShifted(pods.value, before.cache.value)
    {
      failed := true;
      if found.Some? {
        var inCache := RemoveAt(found.value, podName);
        failed := !inCache;
      }
    }

    /**
     * Dereferences the cache once the namespace is found; the namespace loop must not slice out of bounds.
     * A slice handed out earlier over the cache's array sees the shifted pods and the last pod twice.
     */
    method RemovePod(podName: string, namespaceName: string) returns (failed: bool)
      requires Valid() && !Panics(content, Op.RemovePod(podName, namespaceName))
      modifies this`pods, this`content, namespaces, Arrays()
      ensures Valid() && content == Step(old(content), Op.RemovePod(podName, namespaceName))
      ensures failed <==> RemoveFails(old(content), podName, namespaceName)
      ensures namespaces == old(namespaces) && Arrays() == old(Arrays())
      ensures !failed ==>
                old(content).cache.Some? && pods.Some? && pods.value.arr == old(pods.value.arr)
                && SeenShifted(pods.value, old(content).cache.value)
    {
      var found := FindNamespace(namespaceName);
      failed := RemoveIfFound(found, podName, namespaceName, content);
    }

    method ResetCached(list: seq<Pod>)
      requires Valid()
      modifies list`externalIPs, list`skipProbe, list`serviceName, list`clusterIP, list`toPort, list`hostNetwork
      ensures Valid()
      ensures forall p :: p in list ==>
                && p.externalIPs == [] && !p.skipProbe && p.serviceName == "" && p.clusterIP == "" && p.toPort == 0
                && !p.hostNetwork
    {
      ResetEach(list);
    }

    /** Erases the service fields of every cached pod; no pod changes its table key. */
    method ResetAllPods()
      requires Valid()
      modifies this`pods, this`content, FillCache(content).cache.value
      ensures Valid() && content == FillCache(old(content))
      ensures forall p :: p in old(FillCache(content).cache.value) ==>
                && p.externalIPs == [] && !p.skipProbe && p.serviceName == "" && p.clusterIP == "" && p.toPort == 0
                && !p.hostNetwork && p.podIP == old(p.podIP) && p.hostIP == old(p.hostIP)
                && p.nodeName == old(p.nodeName) && p.PodString() == old(p.PodString())
    {
      CachedAllocated();
      var list := ListPods();
      ResetCached(list);
    }

    /** The pods AllPods hands out, as they are. */
    method ListPods() returns (list: seq<Pod>)
      requires Valid()
      modifies this`pods, this`content
      ensures Valid() && content == FillCache(old(content)) && list == old(FillCache(content).cache.value)
    {
      var all := AllPods();
      list := all.Contents();
    }

    lemma CachedAllocated()
      requires Valid()
      ensures forall p :: p in FillCache(content).cache.value ==> allocated(p)
    {
      FlattenMembers(content.namespaces);
    }

    method FillPorts()
      requires Valid()
      modifies this`ports, this`protocols
      ensures Valid() && ports.Some? && protocols.Some?
      ensures Extracted(ports.value, protocols.value, ContainersOf(Flatten(content.namespaces)))
    {
      var somePorts, someProtocols := ExtractPortProtocols(namespaces, content.namespaces);
      ports, protocols := Some(somePorts), Some(someProtocols);
    }

    /** Filled once and never dropped again. */
    method AllPortsProtocol() returns (allPorts: seq<int>, allProtocols: seq<string>)
      requires Valid() && (ports.Some? <==> protocols.Some?)
      modifies this`ports, this`protocols
      ensures ports == Some(allPorts) && protocols == Some(allProtocols)
      ensures old(ports).Some? ==> ports == old(ports) && protocols == old(protocols)
      ensures old(ports).None? ==> Extracted(allPorts, allProtocols, ContainersOf(Flatten(content.namespaces)))
      ensures Valid()
    {
      if ports == None && protocols == None {
        FillPorts();
      }
      allPorts, allProtocols := ports.value, protocols.value;
    }
  }

  lemma {:induction false} FlattenAll(views: seq<NamespaceView>, containers: seq<Container>)
    requires forall i, j :: 0 <= i < |views| && 0 <= j < |views[i].pods| ==> views[i].pods[j].containers == containers
    ensures forall j :: 0 <= j < |Flatten(views)| ==> Flatten(views)[j].containers == containers
    ensures Flatten(views) == [] <==> forall i :: 0 <= i < |views| ==> views[i].pods == []
  {
    if views != [] {
      FlattenAll(views[..|views| - 1], containers);
      assert forall i :: 0 <= i < |views| - 1 ==> views[i] == views[..|views| - 1][i];
    }
  }

  /** A fresh model with at least one namespace, pod, port and protocol lists exactly what it was built from. */
  method NewModelPorts(namespaceNames: seq<string>, podNames: seq<string>, ports: seq<int>, protocols: seq<string>)
    returns (allPorts: seq<int>, allProtocols: seq<string>)
    requires namespaceNames != [] && podNames != [] && ports != [] && protocols != []
    ensures allPorts == Dedup(ports, 0) && allProtocols == Dedup(protocols, "")
  {
    var model := new Model(namespaceNames, podNames, ports, protocols);
    ghost var views := model.content.namespaces;
    forall i, j | 0 <= i < |views| && 0 <= j < |views[i].pods|
      ensures views[i].pods[j].containers == ContainersFor(ports, protocols, "", NoCommand)
    {
      assert BuiltNamespace(views[i], namespaceNames[i], podNames, ports, protocols);
    }
    FlattenAll(views, ContainersFor(ports, protocols, "", NoCommand));
    assert BuiltNamespace(views[0], namespaceNames[0], podNames, ports, protocols);
    ExtractorUndoesBuilder(Flatten(views), ports, protocols, "", NoCommand);
    allPorts, allProtocols := model.AllPortsProtocol();
  }
}
