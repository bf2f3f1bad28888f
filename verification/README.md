# Verified model of the Kubernetes service validator

The program checks Kubernetes services by probing every pod from every other pod and comparing the n x n matrix of
results with what the test expects. This project models the matrix engine and the code around it in Dafny 4.11 and
proves what it does. `dafny verify dfyconfig.toml` checks everything.

| file | what it models |
|---|---|
| `Text.dfy` | options, lists without repetition, strings: split, join, decimal numbers |
| `Entities.dfy` | pods and pod strings, the keys of every table |
| `TruthTable.dfy` | the truth table: fill, write, compare, print |
| `Reachability.dfy` | expectation rules and the summary of right, wrong and ignored pairs |
| `ProbeProtocol.dfy` | one probe round as a transition system of goroutines and channels |
| `Recording.dfy` | what the collected answers leave in a table |
| `ModelSpec.dfy` | the cluster model and its pod cache, as values |
| `Coherence.dfy` | when the pod cache keeps up with the namespaces |
| `Slices.dfy` | Go slices over shared arrays, and deleting from them while ranging |
| `Namespaces.dfy` | building a namespace and reading its ports and protocols back |
| `Model.dfy` | the cluster model as a class over slices |
| `Probe.dfy` | the workers, the collector and a whole round |
| `Verdict.dfy` | the two-try verdict |
| `Purging.dfy` | removing pods by name, in any order |
| `Pending.dfy` | waiting for pods, counting Pending polls, dropping stale pods |
| `Readiness.dfy` | waiting for the servers |
| `Nodes.dfy` | listing the nodes that are ready |
| `Suite.dfy` | the setup of the test suite, from nothing to ready servers, and a test after it |
| `Services.dfy` | service names and ports |

What the cluster does is a parameter everywhere: an arbitrary function says how each probe of a round turns out
(`Network`), and another how the API answers each request and each poll (`Api`). Goroutines may be scheduled in any
order, and Go maps visited in any order: loops over them pick any element that is left. A nil dereference, an index out
of range or a write to a missing row panics in Go; here it is a precondition of the method, or an explicit result
(`Slices.DeleteWhileRanging`). The ghost parameters `pods`, `views`, `names`, `before`, `left` and `ledger` only name
values of the heap at one moment and are no part of the program.

## Main results

- **A probe round is its double loop.** In every reachable state of every interleaving each of the n x n pairs is in
  exactly one place. No send blocks, no state before the end is stuck, and every complete run takes exactly
  4n² + workers + 2 steps, which is 4n² + 5. With distinct keys every run that returns leaves the table of the
  sequential double loop, and nothing of earlier rounds.
- **The verdict is exact.** For any pods with distinct keys, each with a container to run the probes in unless every pod
  is skipped, and any rules, cluster and schedule, the number returned is how many pairs disagree, in the last round
  run, with the last rule that matches them (or, when measuring, are connected below 80,000,000 bits per second). A
  second round runs exactly when the first had a failing pair. Some cluster makes the test pass exactly when every
  counted pair is attainable.
- **The cache follows the model.** For each operation on any coherent model, whatever its names, the condition under
  which the cache stays coherent is exact, and so it is over any run. With distinct names the conditions come down to
  looking for the namespace.
- **Deleting while ranging** over a shared array: what survives, what another slice sees, and exactly when it panics.
- **Removing stale pods** in the order in which Go visits a map: no order panics exactly when a condition on the end of
  the namespace holds, whichever deletions fail; every order removes all of them exactly when, besides, pods that stay
  part those of one name.
- **Waiting** for servers succeeds exactly when every server answers every pod in one of ten tries, the tenth included;
  no server is probed after a try it passed.
- **The setup of the suite**, end to end: exactly which pods remain, with which addresses, whatever the order in which
  they and the counters are visited, and what a test right after it returns.

## What the proofs found

Each of these is a theorem, and where it names an input, a lemma exhibits it.

- `RemovePod` takes the namespace by name but the cached pod by pod name alone. The cache goes stale exactly when the
  pods the namespace loop deletes are not just the first cached pod with the name (`Coherence.CoherenceIsExact`); if the
  name is used at most once in the namespace, exactly when that cached pod is not of the namespace
  (`Coherence.RemovePodCoherence`). So naming the wrong namespace drops a pod from the cache only
  (`Coherence.WrongNamespace`), and with pod names shared between namespaces, as `NewModel` builds them, even the right
  namespace drops the wrong pod (`Coherence.SharedName`).
- `AddPod` leaves the cache stale unless exactly one namespace has the name: with none only the cache grows, with two
  the pod is listed once but added twice (`Coherence.AddPodCoherence`, at inputs in `Coherence.AddedToNoNamespace` and
  `Coherence.AddedToTwo`).
- `AddNamespaceWithImageAndCommands` leaves the cache stale exactly when the cache is filled and the new namespace has a
  pod (`Coherence.CoherenceIsExact`, at an input in `Coherence.AddedBehindCache`).
- `RemovePod`'s namespace loop slices out of bounds exactly when the last pod and an earlier one have the name
  (`Slices.DeleteWhileRanging`, at an input in `Coherence.OutOfBounds`), and otherwise may leave the second of two
  neighbours in place (`Coherence.NeighbourStays`). It removes all pods with the name exactly when they are apart
  (`ModelSpec.RemovesAllExactly`).
- Stale pods are removed name by name, in the order in which Go visits the counters, and that order can decide whether
  the removal panics (`Purging.OrderMatters`). No order panics exactly when every pod that can become the last one
  before its name's turn has a name used once: from the end of the namespace, the stale pods up to the first one that
  stays or whose deletion fails (`Purging.NoOrderPanics`, `Purging.PurgeableIsExact`). A name used twice alone decides
  nothing: it can mean a panic under every order (`Purging.EveryOrderPanics`) or under none
  (`Purging.NoOrderOfOnePanics`). Even without a panic the order can decide which pods are left
  (`Purging.OrderDecidesWhatIsLeft`); every order leaves just the pods that are not stale exactly when, in addition, a
  pod that stays parts any two stale pods of one name (`Purging.EveryOrderClears`).
- A test that asks for bandwidth and for the target's endpoint in one round can not pass if it expects a connection to a
  named pod that is not skipped: when measuring, the endpoint is never read, and yet compared with the name
  (`Probes.CanConnect`, `Verdicts.PassableExactly`, `Verdicts.MeasuringNeverReaches`). A skipped pod counts as connected
  even if it should not be.
- A pod polled as Pending exactly twice before it runs is neither given its addresses nor removed, and loses its node
  (`Pending.PendingTwice`, `Suite.BringUpPods`). Its probes by pod address aim at the empty address
  (`Suite.ProbedNowhere`). Because the counters go by pod name alone, a pod can inherit such a count from a namesake in
  another namespace and get no address even if it runs at its first poll (`Pending.InheritedCounter`).
- If every pod is dropped as stale, there is no server left to wait for and the setup succeeds
  (`Suite.SucceedsWithoutPods`), whatever the network would answer. That takes a setup in which no pod is left, since it
  skips none (`Suite.PassesUnasked`).
- The service counter goes up under a lock but is read outside it. The numbers that calls take are distinct exactly when
  the calls come one after the other (`Services.NumbersDistinctExactly`, `Services.SameNumberTwice`).
- `Summary` tests the completeness of the comparison, whose cells are those of the expected table. Its message therefore
  depends on the expected table only (`TruthTables.AgreementComplete`), and after any rules on new tables it is never
  printed, not even if nothing was observed (`Reachabilities.NeverIncomplete`). A missing observation counts as a
  refused connection (`Reachabilities.NothingWrong`).
- The number of workers is set to four, but the loop that starts them counts from one and so starts three
  (`Probes.RoundLength`).

## Model

| member | source | states |
|---|---|---|
| Entities.PodStringRoundTrip | pkg/entities/pod.go:213-229 | splitting a built pod string gives node, namespace and name back if and only if none of them holds a slash |
| Entities.PodStringInjective | pkg/entities/pod.go:213-215 | two pods without slashes share a key only if they agree on all three components |
| Entities.BuiltSplits | pkg/entities/pod.go:223-229 | no pod string the program builds makes its accessors index out of range, even with slashes inside |
| Entities.ByProtocolFirst | pkg/entities/pod.go:116-124 | the first address kept is the first with the protocol, and none is kept only if there is none |
| Entities.ByProtocolKeeps | pkg/entities/pod.go:116-124 | address by address, those with the protocol are kept in order |
| Entities.Pod.GetExternalIPsByProtocol | pkg/entities/pod.go:116-124 | the loop returns the addresses of the protocol, in order |
| Entities.Pod.Reset | pkg/entities/pod.go:249-256 | service name, cluster IP, external addresses, port, skip and host network flags are blank; addresses, node and table key stay |
| TruthTables.TruthTable.constructor | pkg/matrix/truthtable.go:23-46 | every pair holds the default, or every row is there and empty |
| TruthTables.TruthTable.Compare | pkg/matrix/truthtable.go:51-79 | for any map order, the cell-wise agreement over the receiver's cells with its column set and no bandwidths; neither table changes |
| TruthTables.CompareLaws | pkg/matrix/truthtable.go:51-79 | on tables of one shape: symmetric, all true exactly for equal tables, and comparing twice recovers the other table |
| TruthTables.AgreementComplete | pkg/matrix/truthtable.go:66-78 | a comparison is complete if and only if its first table is |
| TruthTables.TruthTable.IsComplete | pkg/matrix/truthtable.go:82-91 | true if and only if every pair of names has a value |
| TruthTables.TruthTable.Set | pkg/matrix/truthtable.go:94-103 | one cell changes; a missing row is a panic |
| TruthTables.TruthTable.SetBandwidth | pkg/matrix/truthtable.go:106-115 | one bandwidth changes; a missing row is a panic |
| TruthTables.TruthTable.Get | pkg/matrix/truthtable.go:118-128 | a missing row or cell reads as false |
| TruthTables.TruthTable.PrettyPrint | pkg/matrix/truthtable.go:144-162 | the loops build the specified text |
| TruthTables.PrintIsLossless | pkg/matrix/truthtable.go:144-162 | every name and the true, false or unset state of every cell can be read back from the printed text |
| TruthTables.PrintedExample | pkg/matrix/truthtable.go:144-162 | the printed text of a row with a true, a false and an unset cell |
| Reachabilities.MatchesFieldwise | pkg/matrix/reachability.go:112-118 | on the key of a pod, a peer matches exactly when both fields match or are wildcards |
| Reachabilities.Reachability.constructor | pkg/matrix/reachability.go:39-50 | the expected table is the default everywhere, the observed one has all rows and no cell; it keeps the slice, not the pods |
| Reachabilities.Reachability.ExpectPeer | pkg/matrix/reachability.go:121-131 | the double loop over the pods the slice shows by then puts the verdict in exactly the cells of the selected rows and columns |
| Reachabilities.LastRuleWins | pkg/matrix/reachability.go:121-131 | after any rules each cell holds the verdict of the last rule that hits it, else the default, and no key is added |
| Reachabilities.RuleCell | pkg/matrix/reachability.go:121-131 | a rule sets the cell of two pods if and only if namespace and name of either match its peers |
| Reachabilities.RuleByRule | pkg/matrix/reachability.go:121-131 | the expectation of two pods is the default until a rule matches both, and each such rule overrides those before |
| Reachabilities.OneVerdictAnyOrder | tests/basic_service_test.go:165-167 | any permutation of rules with one common verdict gives the same table |
| Reachabilities.Reachability.Observe | pkg/matrix/reachability.go:134-137 | records the connection and the bandwidth of one pair |
| Reachabilities.Reachability.Summary | pkg/matrix/reachability.go:75-104 | for any map order, the three counts are the sizes of the three kinds of cells; the incompleteness message is printed if and only if the expected table is incomplete |
| Reachabilities.NeverIncomplete | pkg/matrix/reachability.go:77-80 | after any rules on a new table the message is never printed, whatever was observed |
| Reachabilities.CountsPartition | pkg/matrix/reachability.go:75-104 | the counts add up to n x n, with exactly the n loopback pairs ignored, or none |
| Reachabilities.NothingWrong | pkg/matrix/reachability.go:75-104 | unmeasured, nothing is wrong if and only if every counted pair agrees, a missing observation being false |
| Reachabilities.NothingWrongMeasured | pkg/matrix/reachability.go:84-101 | measured, nothing is wrong if and only if, besides, no connected counted pair has a known bandwidth below 80,000,000 bits per second |
| Reachabilities.KindExactly | pkg/matrix/reachability.go:84-101 | when one cell is ignored, and when it is wrong, with the benchmark as a number |
| ProbeProtocol.AllJobsOnce | pkg/matrix/probe.go:126-145 | the producer's double loop enqueues each ordered pair exactly once |
| ProbeProtocol.StepKeepsInv | pkg/matrix/probe.go:118-150 | no step of any goroutine loses, duplicates or invents a job, and each uses up one unit of the measure |
| ProbeProtocol.Conservation | pkg/matrix/probe.go:118-150 | in every reachable state each pair is unsent, queued, in flight, answered or collected, exactly once |
| ProbeProtocol.SendsNeverBlock | pkg/matrix/probe.go:120-121 | with both buffers of size n x n, a goroutine with something to send always has room |
| ProbeProtocol.Progress | pkg/matrix/probe.go:118-150 | no deadlock, for any number of workers from one up |
| ProbeProtocol.CompleteRuns | pkg/matrix/probe.go:118-150 | every schedule ends, is stuck only with all workers exited, and complete ones have the same length |
| ProbeProtocol.NoWorkersNoRound | pkg/matrix/probe.go:122-124 | without workers nothing is ever collected |
| Recording.RecordAnyOrder | pkg/matrix/probe.go:148-172 | with distinct keys the order of collection does not matter |
| Recording.LastAnswerWins | pkg/matrix/probe.go:148-172 | without that, pods sharing a key overwrite each other and the last answer stays |
| Recording.RunsLikeTheDoubleLoop | pkg/matrix/probe.go:118-172 | every run that returns leaves the table of the sequential double loop over the same answers |
| Recording.RoundErasesHistory | pkg/matrix/helper.go:72-78 | two rounds with the same answers give the same table from any two earlier ones |
| Recording.CompleteAtTheEnd | pkg/matrix/truthtable.go:82-91 | a fresh observed table becomes complete exactly when the last of the n x n results is collected |
| ModelSpec.DistinctSurvivors | pkg/matrix/model.go:147-157 | with distinct names both delete loops remove exactly the pod, keep the order and do not panic |
| ModelSpec.OnceSurvivors | pkg/matrix/model.go:147-157 | the same for one name, if at most one pod has it |
| ModelSpec.SurvivorsMayRemain | pkg/matrix/model.go:147-151 | the pods that slide past the namespace loop have the name if and only if two neighbours had it |
| ModelSpec.RemovesAllExactly | pkg/matrix/model.go:147-151 | the namespace loop finishes with all pods of the name removed if and only if no two are neighbours and none of several is last |
| ModelSpec.RemoveFailsExactly | pkg/matrix/model.go:136-160 | RemovePod fails if and only if no namespace has the name or no cached pod has the pod name |
| Coherence.CoherenceIsExact | pkg/matrix/model.go:38-160 | for each operation on any coherent model, the cache stays coherent if and only if a condition on the call holds |
| Coherence.RunIsExact | pkg/matrix/model.go:38-160 | over any run, the cache is coherent all along if and only if every call meets its condition |
| Coherence.AddPodCoherence | pkg/matrix/model.go:125-133 | AddPod keeps the cache coherent if and only if exactly one namespace has the name |
| Coherence.AddedToNoNamespace | pkg/matrix/model.go:125-133 | a model whose cache gets a pod that no namespace gets |
| Coherence.AddedToTwo | pkg/matrix/model.go:125-133 | a model whose cache lists once a pod that two namespaces get |
| Coherence.AddedBehindCache | pkg/matrix/model.go:40-46 | a filled cache that misses the pod of a namespace added with an image |
| Coherence.RemovePodCoherence | pkg/matrix/model.go:136-160 | if the name is used at most once in the namespace, RemovePod keeps the cache coherent if and only if the first cached pod with the name is of that namespace |
| Coherence.WrongNamespace | pkg/matrix/model.go:136-160 | two one-pod namespaces with distinct names where the wrong namespace leaves the cache stale |
| Coherence.SharedName | pkg/matrix/model.go:28-31 | two namespaces sharing a pod name, as NewModel builds them, where the right namespace does too |
| Coherence.OutOfBounds | pkg/matrix/model.go:147-151 | three pods on which the namespace loop panics |
| Coherence.NeighbourStays | pkg/matrix/model.go:147-151 | three pods of which one with the name stays |
| Coherence.CarefulIsExact | pkg/matrix/model.go:125-160 | with distinct names the conditions are that the namespace exists, or that it is the pod's |
| Coherence.StepKeepsNames | pkg/matrix/model.go:38-160 | allowed operations keep namespace and pod names distinct |
| Coherence.RunKeepsCoherent | pkg/matrix/model.go:97-106 | after every allowed run AllPods is a permutation of the namespaces' pods |
| Coherence.AddPodExactness | pkg/matrix/model.go:125-133 | AddPod keeps the cache in namespace order if and only if one namespace has the name and no other pod comes after it |
| Coherence.RunKeepsExact | pkg/matrix/model.go:97-133 | if pods are only added to the last namespace, AllPods is the exact concatenation |
| Slices.DeleteAt | pkg/matrix/model.go:149-154 | append(s[:i], s[i+1:]...) shifts the shared array and leaves the last live element behind |
| Slices.DeleteWhileRanging | pkg/matrix/model.go:147-151 | what the namespace loop leaves in the slice and beyond it, and that it panics exactly when the last pod and an earlier one match |
| Slices.DeleteFirst | pkg/matrix/model.go:152-157 | removes the first match only; an earlier slice over the array sees the rest and the last pod twice |
| Namespaces.NewNamespaceWithPods | pkg/entities/namespace.go:35-76 | one new pod per name with one container per port and protocol |
| Namespaces.ContainerAt | pkg/entities/namespace.go:35-76 | which port, protocol, image and command each container has, by its position |
| Namespaces.DedupOnce | pkg/matrix/model.go:65-83 | every port or protocol is listed once, and containers that come later change nothing about the list so far |
| Namespaces.ExtractorUndoesBuilder | pkg/matrix/model.go:65-83 | extraction returns the first occurrences of the ports and protocols the pods were built from |
| Models.Model.constructor | pkg/matrix/model.go:22-36 | every namespace gets new pods with the same names, and no cache is filled |
| Models.ExtractPortProtocols | pkg/matrix/model.go:65-83 | the nested loops compute the first occurrences over all containers in order |
| Models.Model.AllPods | pkg/matrix/model.go:97-106 | fills the cache once with the concatenation and hands out a slice over the cache's own array |
| Models.Model.ResetAllPods | pkg/matrix/model.go:108-113 | every cached pod is blank in the six fields a test sets and keeps addresses, node and key |
| Models.Model.AllPortsProtocol | pkg/matrix/model.go:116-122 | computed once and never dropped again |
| Models.Model.AddNamespace | pkg/matrix/model.go:49-63 | refines the value-level operation, dropping the pod cache |
| Models.Model.AddNamespaceWithImageAndCommands | pkg/matrix/model.go:40-46 | refines the value-level operation, keeping the pod cache |
| Models.Model.AddPod | pkg/matrix/model.go:125-133 | appending to cache and namespaces in place refines the value-level operation; slices never share arrays |
| Models.Model.RemovePod | pkg/matrix/model.go:136-160 | the in-place deletions refine the value-level operation; a slice handed out earlier sees shifted pods |
| Models.NewModelPorts | pkg/matrix/model.go:116-122 | a fresh model lists exactly the deduplicated non-zero ports and non-empty protocols it was built from |
| Probes.RunProbe | pkg/matrix/probe.go:36-109 | what a worker answers to a job: skipping, address, tool and the check of the target's name; when it can be a connection and when it can carry a bandwidth |
| Probes.AnswerRead | pkg/matrix/probe.go:53-105 | for an unskipped target, each field of what the cluster is asked, and when its reply counts as connected |
| Probes.LoadBalancerAddress | pkg/matrix/probe.go:60-71 | the first external address of the protocol, or the empty address if there is none or it is neither TCP nor UDP |
| Probes.CanConnect | pkg/matrix/probe.go:40-98 | some cluster makes a probe report a connection if and only if the target is skipped, has no name, or not both measuring and checking the target are asked for; then one does whose IPerf replies carry a bandwidth exactly when connected |
| Verdicts.PassableExactly | pkg/matrix/helper.go:65-91 | some cluster makes a round pass if and only if every counted pair is attainable, and then one with such IPerf replies does |
| Verdicts.MeasuredPair | pkg/matrix/probe.go:83-98 | asked for both, a pair with a named, unskipped target is wrong if and only if it should connect |
| Verdicts.MeasuringNeverReaches | pkg/matrix/probe.go:83-98 | so with named, unskipped pods exactly the pairs that should connect are counted wrong |
| Probes.ProbePodToPodConnectivity | pkg/matrix/probe.go:112-191 | under every schedule the round ends and each pair's answer is recorded once |
| Probes.RoundLength | pkg/matrix/probe.go:113-124 | there are three workers, so a complete run takes 4n² + 5 steps |
| Probes.ProbeAfterReset | pkg/matrix/model.go:108-113 | once all pods are reset, a round over the cached pods skips no target |
| Verdicts.RoundVerdict | pkg/matrix/reachability.go:75-104 | what the summary counts as wrong after a round is the number of pairs whose answer fails |
| Verdicts.ValidateAndMeasureBandwidthOrFail | pkg/matrix/helper.go:65-91 | the result is the number of failing pairs of the last round run; the second runs if and only if the first had one |
| Verdicts.FailingByRules | pkg/matrix/reachability.go:121-131 | the failing pairs in terms of the last matching rule |
| Verdicts.CountedExactly | pkg/matrix/reachability.go:84-101 | the number counts the pairs whose answer is not what the rules say or, measured, those connected below 80,000,000 bits per second |
| Verdicts.Assess | pkg/matrix/helper.go:65-91 | end to end from pods and rules to the returned number |
| Pending.WaitBounds | pkg/entities/kubernetes/exec.go:39-60 | a wait sees at most three Pending polls less its count, but tolerates one; why each wait ends |
| Pending.CountsIndependent | pkg/entities/kubernetes/exec.go:50-54 | pods with distinct names have counters of their own, grown by exactly their Pending polls |
| Pending.PendingTwice | pkg/entities/kubernetes/exec.go:50-57 | the run of polls that ends up with a count at the threshold |
| Pending.InheritedCounter | pkg/matrix/manager.go:99-107 | a pod whose name was counted twice before gets no address even if it runs at once |
| Pending.KubeManager.PodRunning | pkg/entities/kubernetes/exec.go:39-60 | one poll: when it ends the wait, when it fails, and the counter |
| Pending.KubeManager.WaitForPodRunningInNamespace | pkg/entities/kubernetes/exec.go:32-37 | the polling loop agrees with the specified wait and adds exactly the Pending polls seen |
| Pending.KubeManager.WaitAndSetIPs | pkg/matrix/manager.go:89-109 | exactly when it fails, and which addresses and node the pod ends up with |
| Pending.WaitsExactly | pkg/matrix/manager.go:89-109 | when a wait succeeds: it ends well and, below two counts, the API knows the pod |
| Pending.PlacedExactly | pkg/matrix/manager.go:99-107 | which addresses and node a pod has afterwards, field by field |
| Pending.KubeManager.StartPodsInNamespace | pkg/matrix/manager.go:47-65 | fails if and only if the API rejects the namespace or a pod; otherwise pod i is put on node i |
| Pending.CreatesExactly | pkg/matrix/manager.go:70-78 | a namespace is created if and only if it has one pod for each of at least two nodes and the API accepts all of it |
| Pending.KubeManager.StartPods | pkg/matrix/manager.go:68-86 | exactly when it fails; otherwise the counters, and every pod's addresses by the counter after its own wait, names shared or not |
| Purging.NoOrderPanics | pkg/matrix/manager.go:159-168 | in one namespace no order of the names panics, whichever deletions fail, if and only if every pod that can become the last one before its turn has a name used once |
| Purging.PurgeableIsExact | pkg/matrix/manager.go:155-174 | the same for RemovePod over the whole model, with its cache |
| Purging.EveryOrderClears | pkg/matrix/manager.go:159-168 | if no deletion fails, every order leaves exactly the other pods if and only if no order panics and a pod that stays parts any two of one name |
| Purging.PurgeOneMore | pkg/matrix/manager.go:159-163 | one more removal, of any name left, does not panic, goes on as the names in order say and keeps the condition for the rest |
| Purging.PurgedInAnyOrder | pkg/matrix/manager.go:159-163 | if the stale pods of each name are parted, namespace and cache come out the same in any order |
| Purging.OrderMatters | pkg/matrix/manager.go:159-162 | three pods and two names where one order finishes and the other panics |
| Purging.EveryOrderPanics | pkg/matrix/manager.go:159-162 | three pods and two names where every order panics |
| Purging.NoOrderOfOnePanics | pkg/matrix/manager.go:159-162 | three pods, one name used twice, and no panic |
| Purging.OrderDecidesWhatIsLeft | pkg/matrix/manager.go:159-162 | four pods and two names where both orders finish and leave different pods |
| Pending.KubeManager.RemovePendingPodsInNamespace | pkg/matrix/manager.go:155-174 | called where no map order panics, it removes the stale pods from model and counters in whatever order the map gives, and it says what is left behind on failure; if their pods are parted, the order does not show |
| Readiness.DescribeInjective | pkg/matrix/manager.go:299-305 | no two test cases share a name |
| Readiness.BuildCases | pkg/matrix/manager.go:296-305 | one case per port and protocol |
| Readiness.Sweep | pkg/matrix/manager.go:314-329 | notReady only shrinks, ready cases are not probed and keep tables without a wrong cell |
| Readiness.WaitForHTTPServers | pkg/matrix/manager.go:293-336 | the error is the number of cases that pass none of the attempts 0 to 9, and none if there is no such case; how often each case was probed |
| Readiness.PassesExactly | pkg/matrix/manager.go:314-329 | a try passes if and only if the cluster connects every probe to an unskipped pod, loopback included, at its own address |
| Readiness.TenTries | pkg/matrix/manager.go:312-336 | a case fails if and only if it passes none of the attempts 0 to 9 |
| Readiness.TenRounds | pkg/matrix/manager.go:312-320 | a case is probed up to ten times, and fewer times only if it passed the last of them |
| Readiness.LastTry | pkg/matrix/manager.go:311-335 | servers that answer from the tenth try on are ready; those that would from an eleventh on are counted |
| Nodes.ReadyNodesOnce | pkg/matrix/manager.go:203-212 | a name is listed if and only if a node of that name has the condition Ready with status True, once if names are distinct and no node is ready twice over |
| Nodes.ReadyNodesNext | pkg/matrix/manager.go:205-211 | node by node in order, the name once for every condition Ready with status True |
| Nodes.GetReadyNodes | pkg/matrix/manager.go:197-213 | the nested loops list a node for each condition that says it is ready; a failed listing is passed on |
| Suite.FreshCounts | pkg/matrix/manager.go:80-84 | from no counters, what one pod goes through does not depend on the others |
| Suite.StagesExactly | tests/main_test.go:92-98 | when starting the pods and removing the stale ones succeed, in terms of the answers of the API |
| Suite.StaysExactly | tests/main_test.go:92-98 | a pod stays if and only if its wait saw at most two Pending polls |
| Suite.BringUpPods | tests/main_test.go:92-98 | the pods left are those seen pending at most twice, with the addresses their own polls imply |
| Suite.ProbedNowhere | tests/main_test.go:92-103 | a pod seen pending twice stays and is probed at the empty address |
| Suite.SucceedsWithoutPods | tests/main_test.go:92-103 | a cluster that never schedules a pod passes the setup |
| Suite.PassesUnasked | pkg/matrix/manager.go:293-336 | waiting succeeds whatever the network answers if and only if every pod left is skipped, as when none is left |
| Suite.LateServers | pkg/matrix/manager.go:311-335 | servers that answer from the tenth try on pass the setup; four are reported if they would from an eleventh on |
| Suite.SetUp | tests/main_test.go:76-104 | the whole setup against any cluster: which stage fails, which pods remain, how many servers never answered; the model is new |
| Suite.OutcomeExactly | tests/main_test.go:82-104 | which outcome the setup has, and how many servers are reported |
| Suite.MadeExactly | tests/main_test.go:86-91 | the names of the pods and the four containers of each |
| Suite.FourServers | tests/main_test.go:91 | the four servers waited for |
| Suite.SetUpAndAssess | tests/main_test.go:76-104 | a test right after the setup: the number it returns, by the rules, over the pods that are left |
| Services.NumberedDistinct | pkg/entities/service.go:45-50 | names ending in different numbers differ, whatever their prefixes |
| Text.DecimalReadsBack | pkg/entities/service.go:50 | the digits of a number stand for it |
| Services.ServiceID.NewService | pkg/entities/service.go:45-56 | called by one goroutine, all names handed out so far stay pairwise distinct |
| Services.NumbersDistinctExactly | pkg/entities/service.go:45-50 | called by several, the numbers are distinct if and only if no call increases the counter between another's increase and its read |
| Services.SameNumberTwice | pkg/entities/service.go:123-129 | two calls that both increase first take the same number |
| Services.ServiceID.CreateServiceFromTemplate | pkg/matrix/manager.go:339-376 | the same when services come from templates, accepted or not |
| Services.PortFromContainer | pkg/entities/service.go:59-78 | a protocol and port is returned if and only if a container has it and the protocol is wanted, once, under its own name |
| Services.PortNames | pkg/entities/service.go:65-69 | two port names are equal if and only if the numbers are and the protocols are up to case |
| Services.PortNamesDistinct | pkg/entities/service.go:65-69 | for TCP, UDP and SCTP, different ports have different names |
| Services.AllProtocolsSplit | pkg/entities/service.go:59-78 | for any containers, the ports of all protocols are the disjoint union of those of each protocol |

## Left out

- Kubernetes client calls, remote execution, watches, sleeping and timeouts: what they answer is a parameter, and a wait
  times out when its polls run out.
- The commands run in pods (agnhost, iperf, netcat) and their output: a probe's reply is a parameter, into which
  Netcat's three attempts are folded.
- Bandwidth is an optional real, and only the threshold test of the summary is modelled; float rounding, parsing and the
  printed form of bandwidths are not.
- Logging, PrintSummary, PrettyPrintBandwidth, the analyzer, plain getters and setters, and labels.
- The names of containers, which are made up when first read; only that a pod must have a container is kept.
- Init containers, selectors, session affinity, the type of a service and its DNS name.
- NewModelWithNamespace and InitializePod, which add nothing to the members modelled.
- Numbers are unbounded: neither 32-bit ports nor the wrap-around of the service counter are modelled.
- Services.ServiceID.NewService: for one goroutine at a time; what several do is modelled by schedules of increasing and
  reading, without the creation of the counter by the first call.
- Services.PortFromContainer: lower-casing covers ASCII letters only, which is all that protocol names use.
- Pending.KubeManager.RemovePendingPodsInNamespace: requires exactly what keeps the code from a panic under every map
  order (`Purging.PurgeableIsExact`); a run that gets by because of its order is not described.
- Pending.KubeManager.StartPods: places pods only if the cache lists no pod object twice; one listed twice is waited for
  twice.
- Probes.ProbePodToPodConnectivity: takes the pods as unchanged during the round, as all callers leave them.
- TruthTables.TruthTable.Set: the message about a column that is not allowed is only printed by the code and is left
  out.
