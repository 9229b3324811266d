# Workload actions manager: verified models

Dafny models of the allocators, caches and protocols of the workload actions manager and its scheduler plugins,
with proofs of what they are for. `dafny verify dfyconfig.toml` checks the whole project.

| component | modules |
|---|---|
| elastic quotas and their ledger | `FrameworkResource`, `ElasticQuota`, `QuotaLedger` |
| preemption, by capacity and by toleration | `Pods`, `DisruptionBudgets`, `Greedy`, `Reprieve`, `CapacityPreemption`, `PreemptionToleration`, `PreemptionExamples` |
| single-NUMA filter | `ResourceLists`, `NumaFilter` |
| over-reserve topology cache | `NrtCache`, `NrtHistory`, `CacheSafety` |
| least-NUMA search and score | `LeastNuma`, `NumaDrain`, `NumaScore`, `NumaOrder` |
| scheduling suggestions and the actions on them | `WamProtocol`, `Swap` |
| system-call aware scoring, gang resource check | `SySched`, `GangResource` |
| sums and options used by all of these | `Sums`, `Options` |

State that the program updates in place is a class whose methods are proved against a function on values; the
properties over whole runs are proved about those functions. A loop of the program is a loop here, and where it
ranges over a Go map the model picks the next key arbitrarily, so what is proved holds for every order.

## Main results

- **Cache and filter together.** Over every run of pods reserved for, cancelled, started and ended, foreign pods, marks
  and flushes, a cached view never promises more of a zone than the pods really running there leave, however their
  requests were spread over the zones; so a pod the filter accepts on a cached view really fits every zone it is
  assigned to (`CacheSafety.AlwaysSafe`, `CacheSafety.AcceptedPodReallyFits`). A flush keeps that exactly when the
  flushed data accounts for the pods on the node (`CacheSafety.ResyncSafe`).
- **What a reader sees, by history.** After every run a read is refused exactly on nodes marked since their last flush;
  otherwise it is the data of the last flush, every zone lowered by exactly the reservations made since then and neither
  cancelled nor replaced (`NrtHistory.ReadsAfterRun`).
- **Preemption.** Each outcome of an attempt has its exact condition, including the one way reprieving can fail. A
  successful attempt returns what greedy reprieving in order leaves over, and that set is sound and, for a monotone
  fit, inclusion-minimal; and nobody is sacrificed for a pod behind it in the order (`Reprieve.NobodyYields`). Who can be
  a victim is told without the code's own tests: by quota, priority and usage (`CapacityPreemption.PreemptOnNode`), and by
  class, annotations and time (`PreemptionToleration.ExemptDuringWindow`); of pods alike the less important goes first,
  and one that breaks no budget before one that does (`PreemptionToleration.LowerPriorityGoesFirst`,
  `PreemptionToleration.BudgetKeeperGoesFirst`). The preemptor ends within its quota exactly if no potential victim
  brings a negative minimum into play (`Reprieve.WithinExactly`). If what is nominated exceeds the quota with all
  potential victims gone, a successful attempt evicts every one of them and it still does
  (`Reprieve.NominatedUnrelieved`).
- **Quotas.** In every run each quota's usage is the sum of the requests of exactly the pods it lists, never negative, and
  its limits are those of the last spec its namespace was given (`QuotaLedger.LimitsOfLastSpec`). It lists exactly the
  active pods, at every point, if and only if no event goes wrong in one of four ways (`QuotaLedger.UsageComplete`): a
  quota created after pods of its namespace became active, an already finished pod added, an unlisted pod becoming active
  again, and an update that finishes a pod finished before but still listed.
- **NUMA.** Acceptance in pod scope implies acceptance in container scope; what placing containers takes is conserved;
  the combination search is optimal by size, then distance, then order; the score is determined by its specification.
  Scoring takes from the machine exactly what Guaranteed containers request, and never panics for them, if and only if
  every NUMA node that has something is at the position of its id (`NumaOrder.RightExactly`). A score is the lowest
  exactly if a container fits nowhere, and the highest exactly if none needs NUMA nodes (`NumaOrder.WorstAndBestScores`).
- **Suggestions.** Over every interleaving a suggestion is queued, withdrawn or taken by one cycle, exactly one of the
  three; no two pods carry the same one, and a pod that carries one runs on the node it named. A taken suggestion ends
  up on a pod exactly if its cycle goes on to patch that pod (`WamProtocol.CarriedExactly`).
- **Swap.** A swap that completes restores every scale and has suggested to each side the node of the other, on top of
  their queues; a swap whose wait times out leaves every deployment scaled down; one that is refused or panics has
  changed nothing.

## Where the code differs from what it is called or documented as

- The suggestion "queue" is a stack: suggestions are pushed and popped at the same end, so the latest one is taken
  first (`WamProtocol.LastPushedIsTakenFirst`). A suggestion popped for a pod that another cycle binds is lost
  (`WamProtocol.LostForever`, at an input in `WamProtocol.RetryLosesSuggestion`), and so is one whose pod cannot be
  patched after binding (`WamProtocol.FailedPatchDropsSuggestion`).
- `CheckClusterResource` does not compare the request with the total leftovers of the cluster when a node is
  overcommitted: the outcome then depends on the order of the nodes. `GangResource.OrderDecides` gives such a list, `GangResource.ChecksTheTotal` states exactly when the check is about totals, and `GangResource.OrderIrrelevant`
  exactly when the order does not matter.
- The system-call tracker tells the pods of a node apart by their names alone, forgets a pod only when it is deleted, and
  learns of one only if it is running when first seen or was seen pending with a host. `SySched.TrackingExact` states
  exactly when it follows what really runs; `SySched.SameNameGoesUnnoticed`, `SySched.FinishedStaysTracked` and
  `SySched.QuickStartGoesUnnoticed` are inputs at which it does not.
- A quota's usage is not that of the active pods in the four cases above; `QuotaLedger.LateQuotaMissesPod`,
  `QuotaLedger.FinishedPodIsCharged` and `QuotaLedger.ReturningPodIsMissed` are inputs.
- The capacity plugin's count of violating victims leaves out pods that became victims by the quota test alone. It is
  exact if and only if there is none among the budget-breaking pods (`Reprieve.ReprievePartitions`);
  `PreemptionExamples.VictimNotCounted` is an attempt that reports no violation where there is one. The toleration
  plugin's count is exact.
- A capacity preemption attempt fails with an error, rather than choosing victims, when the quotas are exceeded even
  with all potential victims gone and one of them fails the fit: that pod is removed twice
  (`Reprieve.TrappedExactly`, at an input in `PreemptionExamples.RemovedTwice`).
- A negative minimum for a scalar that no usage names is not looked at until a pod that names it is tried, and stays
  looked at from then on: `PreemptionExamples.NegativeMinimumMisleads` is an attempt that succeeds although the
  preemptor then exceeds its quota.
- The container-scope NUMA score drains the positions that are the ids of the chosen NUMA nodes, which are the chosen
  positions exactly in a list ordered by id (`NumaOrder.PositionsExactly`). In other lists it hands out the same units
  again (`NumaOrder.HandedOutTwice`), or runs off the list and panics (`NumaScore.MissingNodePanics`).
  `NumaOrder.RightExactly` and `NumaOrder.PanicsExactly` state for which lists that can happen to a Guaranteed pod.
- A preemption attempt can succeed and evict for nothing: `PreemptionExamples.EvictedInVain`.
- A swap suggests the empty node name for X exactly if its Ys all lack a node (`Swap.SwapHandler`). An error of its
  deployment lookup is ignored, and reading the selector of the empty object then panics, before anything is deleted
  (`Swap.ComputeTargets`, at an input in `Swap.DeploymentGone`).

## Assumptions

- Integers are unbounded: 32- and 64-bit wrap-around is not modelled.
- A pod's request does not change while it is recorded, and requests are not negative.
- `NodeInfo.RemovePod` fails on a pod that is not on the node, and ranging over a node's pods while removing some still
  visits each once. Pods of equal importance come in any order.
- Whether a preemptor fits a node is an arbitrary predicate on the node's pods, all filter plugins taken together. It is
  assumed monotone only where minimality is concluded. Other plugins' pre-filter extensions succeed.
- NUMA ids are below 64. Distances are bytes, as in the System Locality Information Table (section 5.2.17 of the ACPI
  Specification). Averages are real numbers; within one round only totals of equally many pairs are compared
  (`LeastNuma.DistanceOrder`). The filter's zones have distinct ids.
- Namespaces hold no slash, as Kubernetes demands of their names.
- A foreign pod's start and the mark of its node are one step. Deciding that a topology object may be flushed is the
  hypothesis `CacheSafety.Accounts`.
- Redis operations and extension points are atomic steps, Redis calls succeed, suggestion ids are fresh, a pod is bound
  at most once and to a node that passed the filter, and name fields used in queue names hold no colon; with colons two
  accepted workloads can share a queue (`WamProtocol.ColonsCollide`), exactly as `WamProtocol.QueuesShared` states.
- During a swap every write succeeds and nobody else changes the pods and deployments.

## Model

| member | source | states |
|---|---|---|
| FrameworkResource.Cmp2Meaning | wam-scheduler/pkg/capacityscheduling/elasticquota.go:196-224 | the comparison is true exactly when some compared dimension exceeds its limit |
| FrameworkResource.Cmp2Monotone | wam-scheduler/pkg/capacityscheduling/elasticquota.go:196-224 | larger addends naming no fewer scalars stay over the limit |
| FrameworkResource.CmpMinMeaning | wam-scheduler/pkg/capacityscheduling/elasticquota.go:192-224 | against a non-negative minimum every dimension is compared, named or not |
| ElasticQuota.ElasticQuotaInfo.constructor | wam-scheduler/pkg/capacityscheduling/elasticquota.go:71-87 | a new record lists no pod and uses nothing; a missing minimum counts as 0 and a missing maximum as unbounded in CPU, memory and ephemeral storage |
| ElasticQuota.ElasticQuotaInfo.ReserveResource | wam-scheduler/pkg/capacityscheduling/elasticquota.go:89-97 | usage grows by the request in every dimension, the pod count included |
| ElasticQuota.ElasticQuotaInfo.UnreserveResource | wam-scheduler/pkg/capacityscheduling/elasticquota.go:99-107 | usage shrinks by the request in every dimension |
| ElasticQuota.ElasticQuotaInfo.Clone | wam-scheduler/pkg/capacityscheduling/elasticquota.go:133-156 | the copy is a new object with the same value |
| ElasticQuota.ElasticQuotaInfo.AddPodIfNotPresent | wam-scheduler/pkg/capacityscheduling/elasticquota.go:158-173 | a pod is charged once, and not at all without a uid, which is an error |
| ElasticQuota.ElasticQuotaInfo.DeletePodIfPresent | wam-scheduler/pkg/capacityscheduling/elasticquota.go:175-190 | a pod is released only if it is recorded |
| ElasticQuota.CloneInfos | wam-scheduler/pkg/capacityscheduling/elasticquota.go:40-46 | every record is copied into a new object, none is shared |
| ElasticQuota.AggregatedOverMin | wam-scheduler/pkg/capacityscheduling/elasticquota.go:48-59 | true exactly when, in some dimension the sums name, all usage plus the request exceeds all minima, whatever the map order |
| ElasticQuota.OverMinIsSeen | wam-scheduler/pkg/capacityscheduling/elasticquota.go:48-59 | a dimension whose minima do not add up to less than nothing is never exceeded unnoticed |
| ElasticQuota.WithPodBalanced | wam-scheduler/pkg/capacityscheduling/elasticquota.go:158-173 | charging keeps usage equal to the sum over the listed pods |
| ElasticQuota.WithoutPodBalanced | wam-scheduler/pkg/capacityscheduling/elasticquota.go:175-190 | releasing keeps usage equal to the sum over the listed pods |
| ElasticQuota.BelowOver | wam-scheduler/pkg/capacityscheduling/elasticquota.go:109-131 | with fewer recorded pods no satisfied maximum becomes exceeded, nor a minimum if no name is new, nor the aggregate minimum if no new name brings a negative one |
| ElasticQuota.SmallerRequest | wam-scheduler/pkg/capacityscheduling/elasticquota.go:117-123 | a smaller request exceeds no limit a larger one respects |
| QuotaLedger.ApplyBalanced | wam-scheduler/pkg/capacityscheduling/capacity_scheduling.go:658-764 | every event keeps every record balanced |
| QuotaLedger.LedgerAlwaysBalanced | wam-scheduler/pkg/capacityscheduling/capacity_scheduling.go:346-764 | after every run of events each usage is the sum over exactly the listed pods, and not negative |
| QuotaLedger.UnreserveUndoesReserve | wam-scheduler/pkg/capacityscheduling/capacity_scheduling.go:346-372 | unreserving a freshly reserved pod restores pods and usage of every quota |
| QuotaLedger.LimitsOfLastSpec | wam-scheduler/pkg/capacityscheduling/capacity_scheduling.go:658-728 | after every run a namespace has a quota exactly if it was given a spec and it was not deleted since, and its limits are those of the last spec given, a missing minimum being 0 and a missing maximum unbounded |
| QuotaLedger.StepComplete | wam-scheduler/pkg/capacityscheduling/capacity_scheduling.go:658-764 | an event keeps the listed pods equal to the active ones exactly unless it is one of the four that go wrong |
| QuotaLedger.UsageComplete | wam-scheduler/pkg/capacityscheduling/capacity_scheduling.go:658-764 | exactly the active pods are listed throughout a run if and only if no event goes wrong |
| QuotaLedger.LateQuotaMissesPod | wam-scheduler/pkg/capacityscheduling/capacity_scheduling.go:658-670 | a quota created after its pod was added never lists it |
| QuotaLedger.FinishedPodIsCharged | wam-scheduler/pkg/capacityscheduling/capacity_scheduling.go:695-728 | a pod that has finished when it is added is charged, and an update does not release it |
| QuotaLedger.ReturningPodIsMissed | wam-scheduler/pkg/capacityscheduling/capacity_scheduling.go:730-750 | a released pod that runs again is not charged again |
| QuotaLedger.CapacityScheduling.Reserve | wam-scheduler/pkg/capacityscheduling/capacity_scheduling.go:346-359 | the ledger takes the reserve event; fails only for a quota's pod without a uid |
| QuotaLedger.CapacityScheduling.Unreserve | wam-scheduler/pkg/capacityscheduling/capacity_scheduling.go:361-372 | the ledger takes the unreserve event |
| QuotaLedger.CapacityScheduling.AddElasticQuota | wam-scheduler/pkg/capacityscheduling/capacity_scheduling.go:658-670 | a record is created only where there is none; all others stay the same objects |
| QuotaLedger.CapacityScheduling.UpdateElasticQuota | wam-scheduler/pkg/capacityscheduling/capacity_scheduling.go:672-686 | new limits, with pods and usage carried over |
| QuotaLedger.CapacityScheduling.DeleteElasticQuota | wam-scheduler/pkg/capacityscheduling/capacity_scheduling.go:688-693 | the record and no other is gone |
| QuotaLedger.CapacityScheduling.AddPod | wam-scheduler/pkg/capacityscheduling/capacity_scheduling.go:695-728 | charges the pod's quota, created first if it is listed but unknown |
| QuotaLedger.CapacityScheduling.UpdatePod | wam-scheduler/pkg/capacityscheduling/capacity_scheduling.go:730-750 | releases a pod that is neither running nor pending any more, unless it had finished before, and changes nothing otherwise |
| QuotaLedger.CapacityScheduling.DeletePod | wam-scheduler/pkg/capacityscheduling/capacity_scheduling.go:752-764 | releases the pod from its quota |
| QuotaLedger.CapacityScheduling.SnapshotElasticQuota | wam-scheduler/pkg/capacityscheduling/capacity_scheduling.go:767-775 | the snapshot has the ledger's value and shares no record with it |
| Pods.ComputePodResourceRequest | wam-scheduler/pkg/capacityscheduling/capacity_scheduling.go:837-854 | computes the pod's request |
| Pods.PodRequestIsWidest | wam-scheduler/pkg/capacityscheduling/capacity_scheduling.go:837-854 | without overhead the request is the larger of the containers' sum and each init container, and one of these |
| Pods.PodCountIsSum | wam-scheduler/pkg/capacityscheduling/capacity_scheduling.go:837-854 | the pod count, alone, is not raised to what an init container asks for |
| Pods.SortByImportance | wam-scheduler/pkg/capacityscheduling/capacity_scheduling.go:609-611 | a permutation, the more important pods first |
| Pods.SortLeastImportantFirst | wam-scheduler/pkg/capacityscheduling/capacity_scheduling.go:525 | a permutation, the less important pods first |
| DisruptionBudgets.DrawFor | wam-scheduler/pkg/capacityscheduling/capacity_scheduling.go:868-898 | draws one disruption from every budget that applies to the pod and says whether one was exhausted |
| DisruptionBudgets.FilterPodsWithPDBViolation | wam-scheduler/pkg/capacityscheduling/capacity_scheduling.go:861-906 | a pod is violating exactly when a budget that applies to it is exceeded by the pods up to and including it |
| DisruptionBudgets.GroupIsStable | wam-scheduler/pkg/preemptiontoleration/preemption_toleration.go:357-402 | each group keeps the order of the input and holds exactly its positions |
| DisruptionBudgets.GroupsPartition | wam-scheduler/pkg/preemptiontoleration/preemption_toleration.go:357-402 | the two groups together are the input |
| DisruptionBudgets.NonViolatingWithinBudget | wam-scheduler/pkg/preemptiontoleration/preemption_toleration.go:357-402 | evicting every non-violating pod exceeds no budget |
| DisruptionBudgets.FirstComeFirstServed | wam-scheduler/pkg/capacityscheduling/capacity_scheduling.go:861-906 | of pods that one budget protects, the first ones, as many as may be disrupted, are non-violating, and all others violating |
| DisruptionBudgets.OtherBudgetsDoNotMatter | wam-scheduler/pkg/capacityscheduling/capacity_scheduling.go:861-906 | a budget of another namespace, without a matching selector, or with the pods on record as disrupted changes neither group |
| Reprieve.DryRun.RemovePod | wam-scheduler/pkg/capacityscheduling/capacity_scheduling.go:501-510 | takes a pod off node and quotas together; fails, changing nothing, for a pod that is not there or has no uid |
| Reprieve.DryRun.AddPod | wam-scheduler/pkg/capacityscheduling/capacity_scheduling.go:511-518 | puts a pod back on node and quotas together |
| Reprieve.ReprievePod | wam-scheduler/pkg/capacityscheduling/capacity_scheduling.go:616-639 | a pod stays exactly when the preemptor still fits and no limit is exceeded; the double removal fails |
| Reprieve.ReprieveEach | wam-scheduler/pkg/capacityscheduling/capacity_scheduling.go:640-655 | a pass does what reprieving in order prescribes, and fails exactly when in some round a pod fails the fit and the quotas are exceeded without it |
| Reprieve.ReprieveCandidates | wam-scheduler/pkg/capacityscheduling/capacity_scheduling.go:607-655 | the victims are what greedy reprieving leaves over, budget-breaking pods first and each group by importance |
| Reprieve.BreaksMonotone | wam-scheduler/pkg/capacityscheduling/capacity_scheduling.go:616-639 | a pod that could not return to a smaller node cannot return to a larger one |
| Reprieve.SettledRounds | wam-scheduler/pkg/capacityscheduling/capacity_scheduling.go:607-655 | in every order and after every round the accounts balance and no victim so far could return |
| Reprieve.WithinExactly | wam-scheduler/pkg/capacityscheduling/capacity_scheduling.go:607-655 | the preemptor ends within its quota if and only if no tried pod brings a negative minimum into play |
| Reprieve.TrappedExactly | wam-scheduler/pkg/capacityscheduling/capacity_scheduling.go:616-655 | reprieving fails, in any order, if and only if the quotas are exceeded with all potential victims gone and one of them fails the fit |
| Reprieve.NominatedUnrelieved | wam-scheduler/pkg/capacityscheduling/capacity_scheduling.go:616-655 | in any order the test of the nominated sums ends as it began, and if it began exceeded nobody goes back |
| Reprieve.ReprievePartitions | wam-scheduler/pkg/capacityscheduling/capacity_scheduling.go:607-655 | victims are distinct potential victims, exactly they are gone and the preemptor fits; the reported count is a lower bound, and exact if and only if no budget-breaking pod was taken by the quota alone |
| Reprieve.NobodyYields | wam-scheduler/pkg/preemptiontoleration/preemption_toleration.go:249-285 | if some way out keeps a pod beside all those before it that went back, it goes back too, whatever becomes of those behind it |
| Reprieve.ReprieveIsSound | wam-scheduler/pkg/capacityscheduling/capacity_scheduling.go:607-655 | no victim could return, the preemptor is within its quota exactly if all candidates are harmless, and then failing is being trapped, and an exceeded nominated sum makes everybody a victim and stays exceeded |
| Greedy.RoundsConcat | wam-scheduler/pkg/preemptiontoleration/preemption_toleration.go:272-285 | two passes are one pass over both lists |
| Greedy.RoundsPartition | wam-scheduler/pkg/preemptiontoleration/preemption_toleration.go:249-285 | victims and pods back on the node partition the candidates |
| Greedy.DecidedInTurn | wam-scheduler/pkg/preemptiontoleration/preemption_toleration.go:249-285 | a pod is a victim exactly when it fails the test of its own round |
| Greedy.MisfitsOfFirstPass | wam-scheduler/pkg/preemptiontoleration/preemption_toleration.go:272-285 | counted misfits are at most the budget-breaking victims, and exactly these if and only if none of them was taken though fitting in its round |
| CapacityPreemption.PreFilter | wam-scheduler/pkg/capacityscheduling/capacity_scheduling.go:207-281 | the sums hold the pod and the nominated pods that count; admits exactly within the maximum and the summed minima |
| CapacityPreemption.NominatedSumsIncludeOwn | wam-scheduler/pkg/capacityscheduling/capacity_scheduling.go:225-264 | the pod's own request is part of both sums |
| CapacityPreemption.OneNominated | wam-scheduler/pkg/capacityscheduling/capacity_scheduling.go:225-264 | a nominated pod of the own quota counts in both sums exactly if it is at least as important; one of another quota in the overall sum exactly if that quota is within its minimum |
| CapacityPreemption.AdmittedPodStaysWithinMax | wam-scheduler/pkg/capacityscheduling/capacity_scheduling.go:266-281 | reserving an admitted pod keeps its quota within the maximum in every dimension its request touches, and leaves the others alone |
| CapacityPreemption.SelectPotentialVictims | wam-scheduler/pkg/capacityscheduling/capacity_scheduling.go:527-579 | takes off exactly the pods eligible on the usage left by those taken before; fails exactly if one of them has no uid; `CapacityPreemption.PotentialAreRight` and `CapacityPreemption.NoneIsNobody` say who is eligible |
| CapacityPreemption.SelectedWereEligible | wam-scheduler/pkg/capacityscheduling/capacity_scheduling.go:528-565 | each potential victim was eligible on the usage immediately before its own removal |
| CapacityPreemption.WithinMinLosesNoPod | wam-scheduler/pkg/capacityscheduling/capacity_scheduling.go:528-565 | in cross-quota preemption pods are taken only from other quotas that were over their minimum to begin with |
| CapacityPreemption.PotentialAreRight | wam-scheduler/pkg/capacityscheduling/capacity_scheduling.go:528-565 | potential victims: without a quota, less important pods without one; over its minimum, less important pods of its own quota; else pods of other quotas only |
| CapacityPreemption.NoneIsNobody | wam-scheduler/pkg/capacityscheduling/capacity_scheduling.go:528-579 | there is no potential victim exactly if there is no less important pod of that kind, or no pod of another quota over its minimum |
| CapacityPreemption.PreemptorWithinQuota | wam-scheduler/pkg/capacityscheduling/capacity_scheduling.go:600-605 | the preemptor is within its maximum and the summed minima |
| CapacityPreemption.EmptyNode | wam-scheduler/pkg/capacityscheduling/capacity_scheduling.go:520-605 | every early outcome with its exact condition |
| CapacityPreemption.SelectVictimsOnNode | wam-scheduler/pkg/capacityscheduling/capacity_scheduling.go:476-656 | each outcome has its exact condition, no victims exactly if nobody less important of its own quota, or nobody of a quota over its minimum, is there; victims of the own quota are less important; on success the victims are the greedy ones, distinct and gone, with the exact condition for the reported count; with accounted requests they are minimal, within the quota exactly if harmless, and all candidates if what is nominated exceeds the quota without them |
| CapacityPreemption.UsuallyHarmless | wam-scheduler/pkg/capacityscheduling/capacity_scheduling.go:528-639 | with non-negative minima, or all pods recorded, every potential victim is harmless |
| CapacityPreemption.PreemptOnNode | wam-scheduler/pkg/capacityscheduling/capacity_scheduling.go:476-656 | an attempt leaves the live ledger alone, takes from its own quota only what is less important and from other quotas only above their minimum; no victims exactly if there is nobody to take |
| CapacityPreemption.OtherQuotaVictims | wam-scheduler/pkg/capacityscheduling/capacity_scheduling.go:528-579 | victims of other namespaces come from quotas over their minimum, in either mode |
| PreemptionToleration.TolerationWearsOff | wam-scheduler/pkg/preemptiontoleration/preemption_toleration.go:127-177 | a pod exempt later and from a more important preemptor is exempt now and from a less important one |
| PreemptionToleration.ToleratesForever | wam-scheduler/pkg/preemptiontoleration/preemption_toleration.go:127-177 | exempt at all times exactly with a valid policy, a preemptor below its threshold, and an endless toleration or no scheduling time |
| PreemptionToleration.ExemptDuringWindow | wam-scheduler/pkg/preemptiontoleration/preemption_toleration.go:127-177 | below the threshold of its class, as annotated or one above the class, a pod is exempt until its toleration, as annotated or none, has passed since it was scheduled, and preemptable from then on |
| PreemptionToleration.ThresholdDecides | wam-scheduler/pkg/preemptiontoleration/preemption_toleration.go:159-162 | from the threshold on a preemptor is not tolerated at any time |
| PreemptionToleration.NeverOrUnreadable | wam-scheduler/pkg/preemptiontoleration/preemption_toleration.go:140-158 | a preemptor that never preempts takes no pod of a known class; an annotation that cannot be parsed protects nobody |
| PreemptionToleration.NotTakenInWindow | wam-scheduler/pkg/preemptiontoleration/preemption_toleration.go:127-232 | a pod within its toleration is not taken |
| PreemptionToleration.NoToleration | wam-scheduler/pkg/preemptiontoleration/preemption_toleration_policy.go:55-83 | without annotations every more important pod that may preempt can take it |
| PreemptionToleration.TakeableFromListing | wam-scheduler/pkg/preemptiontoleration/preemption_toleration.go:213-232 | takeable pods are exactly the listed, less important, non-exempt ones |
| PreemptionToleration.SelectPotentialVictims | wam-scheduler/pkg/preemptiontoleration/preemption_toleration.go:213-232 | takes off exactly the takeable pods, which `PreemptionToleration.ExemptDuringWindow`, `PreemptionToleration.ThresholdDecides` and `PreemptionToleration.NeverOrUnreadable` tell by class, annotations and time; fails exactly if some pod's class is unknown or a pod to take has no uid |
| PreemptionToleration.SelectVictimsOnNode | wam-scheduler/pkg/preemptiontoleration/preemption_toleration.go:184-286 | each outcome has its exact condition; on success the victims are the greedy ones, sound and minimal, less important than the preemptor and past their toleration, with an exact violation count |
| PreemptionToleration.LowerPriorityGoesFirst | wam-scheduler/pkg/preemptiontoleration/preemption_toleration.go:245-285 | of two pods alike for the fit, both breaking budgets or neither, the more important one, or the older one of the same priority, is evicted only if the other is |
| PreemptionToleration.BudgetKeeperGoesFirst | wam-scheduler/pkg/preemptiontoleration/preemption_toleration.go:245-285 | of two pods alike for the fit, one that breaks a budget is evicted only if the one that does not is, whatever their priorities |
| PreemptionExamples.VictimNotCounted | wam-scheduler/pkg/capacityscheduling/capacity_scheduling.go:616-655 | a budget-breaking victim that fits but exceeds the maximum is reported as no violation |
| PreemptionExamples.RemovedTwice | wam-scheduler/pkg/capacityscheduling/capacity_scheduling.go:616-639 | an attempt that passes every early check and fails by removing its one potential victim twice |
| PreemptionExamples.EvictedInVain | wam-scheduler/pkg/capacityscheduling/capacity_scheduling.go:616-655 | an attempt that evicts the only candidate and leaves the preemptor as refused as before |
| PreemptionExamples.NegativeMinimumMisleads | wam-scheduler/pkg/capacityscheduling/capacity_scheduling.go:600-639 | an attempt that succeeds and leaves the preemptor over the summed minima |
| ResourceLists.GetPodEffectiveRequest | wam-scheduler/pkg/util/resource.go:50-77 | per resource the larger of the widest init container and the sum of the containers, for all names that occur |
| ResourceLists.PrefixedIsNative | wam-scheduler/pkg/noderesourcetopology/numaresources.go:105-118 | a prefixed resource is native exactly if its prefix ends in the domain kubernetes.io |
| ResourceLists.ResourceKinds | wam-scheduler/pkg/noderesourcetopology/numaresources.go:105-135 | CPU, memory and huge pages must have NUMA affinity; storage and vendors' devices need not |
| NumaFilter.ResourcesAvailableInAnyNUMANodes | wam-scheduler/pkg/noderesourcetopology/filter.go:94-160 | suitable exactly when one NUMA node serves the whole request, and returns the lowest such node |
| NumaFilter.FeasibleNodes | wam-scheduler/pkg/noderesourcetopology/filter.go:118-135 | the mask holds exactly the nodes that serve one resource |
| NumaFilter.UnreportedIsFatal | wam-scheduler/pkg/noderesourcetopology/filter.go:94-160 | CPU, memory or huge pages that no NUMA node reports make the request unsuitable |
| NumaFilter.UnreportedIsHarmless | wam-scheduler/pkg/noderesourcetopology/filter.go:94-160 | storage or a vendor's device that no NUMA node reports is no obstacle, as long as the node has it |
| NumaFilter.UnpinnedAmounts | wam-scheduler/pkg/noderesourcetopology/numaresources.go:137-143 | for a pod that is not Guaranteed, how much CPU, memory and huge pages it asks for makes no difference |
| NumaFilter.SubtractResourcesFromNUMANodeList | wam-scheduler/pkg/noderesourcetopology/numaresources.go:145-182 | takes the request from the chosen node only; fails exactly when that would go below zero |
| NumaFilter.AlignedNodeCovers | wam-scheduler/pkg/noderesourcetopology/numaresources.go:137-182 | a node that aligns a request covers the subtraction |
| NumaFilter.SingleNUMAContainerLevelHandler | wam-scheduler/pkg/noderesourcetopology/filter.go:43-90 | accepts exactly when init containers align and first-fit places the others in turn; inconsistent accounting never occurs |
| NumaFilter.SingleNUMAPodLevelHandler | wam-scheduler/pkg/noderesourcetopology/filter.go:162-180 | accepts exactly when one NUMA node aligns the effective request |
| NumaFilter.PlacementConserves | wam-scheduler/pkg/noderesourcetopology/filter.go:69-89 | on every node and resource initial equals final plus what was assigned there |
| NumaFilter.PodScopeImpliesContainerScope | wam-scheduler/pkg/noderesourcetopology/filter.go:43-180 | whatever pod scope accepts, container scope accepts on the same zones |
| NrtCache.ResourceStore.AddPod | wam-scheduler/pkg/noderesourcetopology/cache/store.go:101-112 | records the pod's effective request under its namespace and name, and nothing else |
| NrtCache.ResourceStore.DeletePod | wam-scheduler/pkg/noderesourcetopology/cache/store.go:115-125 | forgets the pod of that namespace and name, and nothing else |
| NrtCache.ResourceStore.UpdateNRT | wam-scheduler/pkg/noderesourcetopology/cache/store.go:129-160 | every zone resource reads the stored amount less the sum of all reservations, floored at zero, whatever the order |
| NrtCache.DifferentPodsDifferentKeys | wam-scheduler/pkg/noderesourcetopology/cache/store.go:101-125 | two pods share a reservation exactly if both namespace and name agree |
| NrtCache.ReservationShows | wam-scheduler/pkg/noderesourcetopology/cache/overreserve.go:87-147 | reserving for a pod lowers every zone resource a reader gets by the pod's effective request |
| NrtCache.PodsReservedSideBySide | wam-scheduler/pkg/noderesourcetopology/cache/overreserve.go:132-163 | readers miss the requests of both of two pods of different namespace or name, and once one is unreserved exactly that of the other |
| NrtCache.OverReserve.GetCachedNRTCopy | wam-scheduler/pkg/noderesourcetopology/cache/overreserve.go:87-111 | refuses marked nodes, has no data for unknown ones, else returns a lowered fresh copy; changes nothing stored |
| NrtCache.OverReserve.NodeMaybeOverReserved | wam-scheduler/pkg/noderesourcetopology/cache/overreserve.go:113-118 | the discard step |
| NrtCache.OverReserve.NodeHasForeignPods | wam-scheduler/pkg/noderesourcetopology/cache/overreserve.go:120-130 | the foreign mark, for known nodes only |
| NrtCache.OverReserve.ReserveNodeResources | wam-scheduler/pkg/noderesourcetopology/cache/overreserve.go:132-147 | the reserve step, with the pod's effective request; `NrtCache.PodsReservedSideBySide` says what readers see of it |
| NrtCache.OverReserve.UnreserveNodeResources | wam-scheduler/pkg/noderesourcetopology/cache/overreserve.go:149-163 | the unreserve step, for this pod only; `NrtCache.PodsReservedSideBySide` says what readers see of it |
| NrtCache.OverReserve.NodesMaybeOverReserved | wam-scheduler/pkg/noderesourcetopology/cache/overreserve.go:172-192 | lists exactly the foreign and discarded nodes, once each, changing neither counter |
| NrtCache.OverReserve.FlushNodes | wam-scheduler/pkg/noderesourcetopology/cache/overreserve.go:271-281 | stores copies of the given objects and clears reservations and marks of exactly their nodes |
| NrtCache.FlushAllEffect | wam-scheduler/pkg/noderesourcetopology/cache/overreserve.go:271-281 | flushed nodes have the data of their last update, no reservations and no marks; data, reservations and both marks of others are untouched |
| NrtCache.ForeignNodesHaveData | wam-scheduler/pkg/noderesourcetopology/cache/overreserve.go:120-130 | in every run a node marked foreign has stored data |
| NrtCache.RefusedUntilFlushed | wam-scheduler/pkg/noderesourcetopology/cache/overreserve.go:87-192 | a marked node is refused by every read until it is flushed, whatever else happens |
| NrtHistory.ReservedExactly | wam-scheduler/pkg/noderesourcetopology/cache/overreserve.go:132-163 | after every run a node's reservations are exactly those with no later flush of the node, cancellation or renewal, each with its request |
| NrtHistory.StoredExactly | wam-scheduler/pkg/noderesourcetopology/cache/overreserve.go:271-281 | after every run a node's data is that of its last flush, or what was there at the start |
| NrtHistory.RefusedExactly | wam-scheduler/pkg/noderesourcetopology/cache/overreserve.go:87-130 | after every run the refused nodes are exactly those marked, with data, since their last flush |
| NrtHistory.DoubtedExactly | wam-scheduler/pkg/noderesourcetopology/cache/overreserve.go:113-118 | after every run the discarded nodes are exactly those filtered out with no later reservation or flush |
| NrtHistory.ReadsAfterRun | wam-scheduler/pkg/noderesourcetopology/cache/overreserve.go:87-111 | a read after any run, told by the run's steps alone |
| CacheSafety.StepSafe | wam-scheduler/pkg/noderesourcetopology/cache/overreserve.go:113-281 | every possible event keeps the cache from overpromising |
| CacheSafety.AlwaysSafe | wam-scheduler/pkg/noderesourcetopology/cache/overreserve.go:87-281 | so does every run of pods started, cancelled and ended, whatever their namespaces and names |
| CacheSafety.InitiallySafe | wam-scheduler/pkg/noderesourcetopology/cache/overreserve.go:59-85 | it starts safe if the first topology objects account for the running pods |
| CacheSafety.ResyncSafe | wam-scheduler/pkg/noderesourcetopology/cache/overreserve.go:202-268 | a flush leaves the node safe if and only if the flushed data promises only what its pods leave |
| CacheSafety.ResyncShown | wam-scheduler/pkg/noderesourcetopology/cache/overreserve.go:202-281 | right after a flush readers get the flushed data itself, so they are not deceived if and only if it accounts for the pods |
| CacheSafety.ViewNeverOverpromises | wam-scheduler/pkg/noderesourcetopology/cache/store.go:129-160 | a view shows zero or at most what is really left, however requests were spread over zones |
| CacheSafety.AcceptedPodReallyFits | wam-scheduler/pkg/noderesourcetopology/filter.go:43-160 | what the filter assigns to a zone on a cached view is really left there |
| CacheSafety.AcceptedInitReallyFits | wam-scheduler/pkg/noderesourcetopology/filter.go:56-67 | the same for init containers |
| CacheSafety.AcceptedPodScopeReallyFits | wam-scheduler/pkg/noderesourcetopology/filter.go:162-180 | in pod scope there really is room for the whole pod on a NUMA node it aligns on |
| LeastNuma.CombinationsSound | wam-scheduler/pkg/noderesourcetopology/least_numa.go:167-182 | only ascending subsets of the size are listed |
| LeastNuma.CombinationsComplete | wam-scheduler/pkg/noderesourcetopology/least_numa.go:167-182 | all of them are listed |
| LeastNuma.CombinationsAscend | wam-scheduler/pkg/noderesourcetopology/least_numa.go:167-182 | in lexicographic order |
| LeastNuma.NodesAvgDistance | wam-scheduler/pkg/noderesourcetopology/least_numa.go:124-146 | the average cost over all ordered pairs, a missing cost counting as the maximum; `LeastNuma.MeanOfFour`, `LeastNuma.LargerCostIsFarther` and `LeastNuma.UnreportedIsFarthest` tell it by the reported costs |
| LeastNuma.DistanceBound | wam-scheduler/pkg/noderesourcetopology/least_numa.go:110-146 | no average exceeds the initial minimum of the search |
| LeastNuma.DistanceOrder | wam-scheduler/pkg/noderesourcetopology/least_numa.go:124-146 | averages of equal size order as their totals |
| LeastNuma.MeanOfFour | wam-scheduler/pkg/noderesourcetopology/least_numa.go:124-146 | the distance of two nodes is the mean of the four costs they report for themselves and each other |
| LeastNuma.LargerCostIsFarther | wam-scheduler/pkg/noderesourcetopology/least_numa.go:124-146 | reporting a larger cost between two nodes takes exactly the combinations that hold both farther apart, and leaves all others as they are |
| LeastNuma.UnreportedIsFarthest | wam-scheduler/pkg/noderesourcetopology/least_numa.go:131-139 | a cost that is not reported counts as 255 |
| LeastNuma.MinAvgDistanceInCombinations | wam-scheduler/pkg/noderesourcetopology/least_numa.go:110-122 | a lower bound that is attained |
| LeastNuma.CombineResources | wam-scheduler/pkg/noderesourcetopology/least_numa.go:148-162 | per resource the sum over the combination |
| LeastNuma.FitsCombination | wam-scheduler/pkg/noderesourcetopology/least_numa.go:218-241 | every node reports each requested NUMA resource and the sums suffice |
| LeastNuma.FindSuitableCombination | wam-scheduler/pkg/noderesourcetopology/least_numa.go:187-216 | the first of least distance among the fitting ones, and whether none at all is closer |
| LeastNuma.BestIsOptimal | wam-scheduler/pkg/noderesourcetopology/least_numa.go:167-216 | that combination is optimal among all of every size |
| LeastNuma.NumaNodesRequired | wam-scheduler/pkg/noderesourcetopology/least_numa.go:167-182 | fewest nodes, then least distance, then first; the flag is exact; nothing found means nothing fits |
| LeastNuma.ClosestPairWins | wam-scheduler/pkg/noderesourcetopology/least_numa.go:167-216 | of three equal nodes of which two are close, a request for two nodes gets these |
| NumaDrain.SubtractFromNUMAs | wam-scheduler/pkg/noderesourcetopology/numaresources.go:184-215 | listed positions are drained in order, each giving all it has or what is still wanted; others keep theirs; panics exactly if a resource is not used up before the first position that is not on the list |
| NumaDrain.DrainTakes | wam-scheduler/pkg/noderesourcetopology/numaresources.go:184-215 | of each resource exactly the lesser of the request and what the first nodes have is taken |
| NumaDrain.DrainConserves | wam-scheduler/pkg/noderesourcetopology/numaresources.go:184-215 | nothing else is lost on the machine |
| NumaDrain.WholeRequestTaken | wam-scheduler/pkg/noderesourcetopology/least_numa.go:45-69 | a Guaranteed container's combination gives the whole request |
| NumaScore.ConservedExactly | wam-scheduler/pkg/noderesourcetopology/least_numa.go:45-69 | for any pod and list, what is gone from the machine is the sum of all requests if and only if every container found its request at the positions it drained |
| NumaScore.TraceConserves | wam-scheduler/pkg/noderesourcetopology/least_numa.go:45-69 | for Guaranteed pods and nodes listed by id it always is |
| NumaScore.WrongNodeDrained | wam-scheduler/pkg/noderesourcetopology/least_numa.go:66-68 | a container put on one NUMA node that is not at the position of its id leaves that node as it was |
| NumaOrder.HandedOutTwice | wam-scheduler/pkg/noderesourcetopology/least_numa.go:45-69 | a list of two NUMA nodes at which two containers are given the same units |
| NumaOrder.PositionsExactly | wam-scheduler/pkg/noderesourcetopology/least_numa.go:66-68 | the ids of every combination are its positions if and only if the list is ordered by id |
| NumaOrder.RightExactly | wam-scheduler/pkg/noderesourcetopology/least_numa.go:37-76 | for all Guaranteed containers what is gone is what was requested and nothing panics, if and only if every NUMA node that has something is at the position of its id |
| NumaScore.LeastNUMAContainerScopeScore | wam-scheduler/pkg/noderesourcetopology/least_numa.go:37-76 | minimum if some container fits nowhere, maximum if none needs NUMA, else by the neediest container and overall closeness; panics exactly where draining runs off the list |
| NumaScore.NamingIsEnough | wam-scheduler/pkg/noderesourcetopology/pluginhelpers.go:161-171 | the containers served are exactly those that name a resource of some NUMA node, even if they ask for none of it |
| NumaOrder.WorstAndBestScores | wam-scheduler/pkg/noderesourcetopology/least_numa.go:37-108 | up to eight NUMA nodes the score is from 0 to 100: 0 exactly if some container fits nowhere in its turn, 100 exactly if none names a resource of a NUMA node |
| NumaScore.ScoreIsUnique | wam-scheduler/pkg/noderesourcetopology/least_numa.go:37-76 | serving containers in turn with optimal combinations determines the score: there is only one |
| NumaScore.NeverPanics | wam-scheduler/pkg/noderesourcetopology/least_numa.go:37-76 | with all ids on the list, in any order, no pod's score panics, whatever its QoS class |
| NumaOrder.PanicsExactly | wam-scheduler/pkg/noderesourcetopology/least_numa.go:37-76 | some Guaranteed pod's score panics if and only if a NUMA node that has something has an id that is no position |
| NumaOrder.NeverPanicsExactly | wam-scheduler/pkg/noderesourcetopology/least_numa.go:37-76 | where every NUMA node has something, no pod of any QoS class panics if and only if all ids are positions |
| NumaScore.MissingNodePanics | wam-scheduler/pkg/noderesourcetopology/least_numa.go:37-76 | with a single NUMA node of id 1 a fitting pod's score panics |
| NumaScore.ScoreIsLexicographic | wam-scheduler/pkg/noderesourcetopology/least_numa.go:99-108 | fewer nodes always score higher, and among equally many the closest do |
| NumaScore.ScoreInRange | wam-scheduler/pkg/noderesourcetopology/least_numa.go:99-108 | the score is in range exactly up to eight nodes, and with the bonus from one on |
| WamProtocol.QueueNameInjective | wam-scheduler/pkg/wam/plugin.go:54-56 | distinct colon-free workloads have distinct queues |
| WamProtocol.QueuesShared | wam/pkg/actions/create.go:13-39 | exactly when two deployments share a queue |
| WamProtocol.ColonsCollide | wam/pkg/actions/create.go:13-39 | two deployments that pass validation share one |
| WamProtocol.StepKeeps | wam-scheduler/pkg/wam/plugin.go:77-178 | every handler and scheduling step keeps the protocol invariant |
| WamProtocol.AlwaysInv | wam-scheduler/pkg/wam/plugin.go:77-178 | so does every interleaving |
| WamProtocol.ExactlyOneFate | wam/pkg/actions/create.go:41-80 | a pushed suggestion is queued, withdrawn or taken, exactly one of these |
| WamProtocol.SuggestionOnOnePodOnly | wam-scheduler/pkg/wam/plugin.go:142-178 | no two pods carry the same suggestion |
| WamProtocol.SuggestionIsHonoured | wam-scheduler/pkg/wam/plugin.go:120-178 | a pod that carries one is of its workload and bound to its node |
| WamProtocol.CarriedExactly | wam-scheduler/pkg/wam/plugin.go:77-178 | in every run a taken suggestion is on a pod if and only if the cycle that took it patched its pod |
| WamProtocol.FailedPatchDropsSuggestion | wam-scheduler/pkg/wam/plugin.go:142-178 | a run that binds a pod as suggested and leaves the suggestion on no pod |
| WamProtocol.LostForever | wam-scheduler/pkg/wam/plugin.go:77-178 | once another cycle has bound the pod, the suggestion held for it never gets on any pod |
| WamProtocol.RetryLosesSuggestion | wam-scheduler/pkg/wam/plugin.go:77-114 | a run in which a retried pod is bound without its suggestion |
| WamProtocol.LastPushedIsTakenFirst | wam-scheduler/pkg/wam/plugin.go:77-114 | the next pod of the workload takes the latest suggestion |
| WamProtocol.WithdrawUndoesPush | wam/pkg/actions/create.go:41-80 | withdrawing right after pushing restores every queue |
| WamProtocol.Cluster.AddSchedulingSuggestion | wam/pkg/actions/create.go:41-62 | the push step |
| WamProtocol.Cluster.RemoveSchedulingSuggestion | wam/pkg/actions/create.go:64-80 | the withdraw step, a no-op for a suggestion no longer queued |
| WamProtocol.Cluster.PreFilter | wam-scheduler/pkg/wam/plugin.go:77-114 | the pop step, without a suggestion for pods without deployment or with an empty queue |
| WamProtocol.Cluster.BindPod | wam-scheduler/pkg/wam/plugin.go:120-140 | the bind step: a pod without a node goes to one that Filter lets pass |
| WamProtocol.Cluster.PostBind | wam-scheduler/pkg/wam/plugin.go:142-178 | the annotate step, which leaves the pod as it was without a suggestion or if the patch fails |
| WamProtocol.Cluster.CreateHandler | wam/pkg/actions/create.go:82-137 | pushes and scales up by one, or withdraws again and leaves the scale alone |
| WamProtocol.Cluster.DeleteHandler | wam/pkg/actions/delete.go:22-74 | each outcome with its exact condition; the pod becomes the preferred one to go before its deployment is scaled down by one, and stays so if that fails |
| Swap.ComputeTargets | wam/pkg/actions/swap.go:57-106 | succeeds exactly if all lookups do and the Ys are together, panics exactly at a missing deployment no earlier pod stopped at; each target is the status count less the swapped pods |
| Swap.DeploymentGone | wam/pkg/actions/swap.go:86-102 | a pod whose deployment is gone makes the lookups panic |
| Swap.NoNodeOfYs | wam/pkg/actions/swap.go:69-78 | no node is found for the Ys if and only if none of them has one |
| Swap.DeletePhase | wam/pkg/actions/swap.go:131-133 | every scale drops by the number of its swapped pods, and exactly these become preferred |
| Swap.WaitPhase | wam/pkg/actions/swap.go:137-178 | succeeds exactly if every deployment is seen at or below its target before the timer |
| Swap.CreatePhase | wam/pkg/actions/swap.go:185-187 | one push per pod, in order and on top of its workload's queue, toward the other side's node, each scale back up by the number of its pods |
| Swap.PushesExchange | wam/pkg/actions/swap.go:107-125 | the suggestion for each Y names the node X was on, the one for X the node of the Ys, each for its own pod's workload |
| Swap.SwapHandler | wam/pkg/actions/swap.go:50-190 | completion restores all scales, has suggested X's node for every Y and the Ys' node for X on top of their queues, and comes only after all deployments were seen without their swapped pods; a timeout leaves them down; being refused or panicking changes nothing; each with its exact condition, and the one for suggesting no node for X |
| Swap.DownThenUp | wam/pkg/actions/swap.go:131-187 | scaling down and up by the same pods conserves every scale |
| SySched.SySched.AddPod | wam-scheduler/pkg/sysched/sysched.go:305-328 | the tracking step, host calls staying the union over the listed pods |
| SySched.SySched.RemovePod | wam-scheduler/pkg/sysched/sysched.go:341-360 | the untracking step, host calls staying the union over the listed pods |
| SySched.SySched.PodAdded | wam-scheduler/pkg/sysched/sysched.go:362-371 | adds a pod that is running |
| SySched.SySched.PodUpdated | wam-scheduler/pkg/sysched/sysched.go:373-381 | adds a pod that was pending with a host before the update |
| SySched.SySched.PodDeleted | wam-scheduler/pkg/sysched/sysched.go:383-387 | removes a pod |
| SySched.SySched.RemoveAt | wam-scheduler/pkg/sysched/sysched.go:52-59 | swap-with-last removes exactly the one element |
| SySched.SySched.RecomputeHostSyscalls | wam-scheduler/pkg/sysched/sysched.go:330-339 | the union over the pods |
| SySched.TrackedNamesUnique | wam-scheduler/pkg/sysched/sysched.go:305-360 | in every run the names listed on a node are unique |
| SySched.StepExact | wam-scheduler/pkg/sysched/sysched.go:305-387 | an event leaves tracked what really runs exactly unless it is one of those that lead astray |
| SySched.TrackingExact | wam-scheduler/pkg/sysched/sysched.go:305-387 | tracking is exact throughout a run if and only if no event leads astray |
| SySched.SameNameGoesUnnoticed | wam-scheduler/pkg/sysched/sysched.go:305-328 | a second pod of a name on a node is not tracked |
| SySched.FinishedStaysTracked | wam-scheduler/pkg/sysched/sysched.go:373-387 | a pod that has ended is tracked until it is deleted |
| SySched.QuickStartGoesUnnoticed | wam-scheduler/pkg/sysched/sysched.go:373-381 | a pod first seen pending without a host and next running is never tracked |
| SySched.OrdinaryLifeFollowed | wam-scheduler/pkg/sysched/sysched.go:362-387 | after any run followed so far, a pod that is pending, gets a host, runs and is deleted is followed all the way, if no pod of its name is on the node |
| SySched.WhatIfAgrees | wam-scheduler/pkg/sysched/sysched.go:253-264 | the what-if sum is the total over all pods once the pod is added |
| SySched.SySched.Score | wam-scheduler/pkg/sysched/sysched.go:231-275 | the score in every case, equal to the total after adding a pod of a new name; the recorded average is that of all recorded totals |
| GangResource.GetNodeResource | wam-scheduler/pkg/coscheduling/core/core.go:325-359 | what the node has left when the group's own pods do not count |
| GangResource.LeftoverNext | wam-scheduler/pkg/coscheduling/core/core.go:325-359 | one more pod on a node takes nothing from what its own group has left there, and its request and one place from every other group |
| GangResource.LackingMeaning | wam-scheduler/pkg/coscheduling/core/core.go:298-318 | after each node exactly the resources no prefix covers are still asked for, less what the nodes have |
| GangResource.CheckClusterResource | wam-scheduler/pkg/coscheduling/core/core.go:298-318 | succeeds exactly if there is a node and some prefix of the nodes covers each resource; else returns the gap |
| GangResource.ChecksTheTotal | wam-scheduler/pkg/coscheduling/core/core.go:298-318 | the check is about totals, for every quantity, if and only if no tail of the list is overcommitted as a whole |
| GangResource.NoOvercommitment | wam-scheduler/pkg/coscheduling/core/core.go:298-318 | without overcommitted nodes it asks whether the total leftovers suffice |
| GangResource.OrderIrrelevant | wam-scheduler/pkg/coscheduling/core/core.go:298-318 | all orders of the nodes agree on every positive quantity if and only if no node is overcommitted or none has room |
| GangResource.OvercommitmentUnnoticed | wam-scheduler/pkg/coscheduling/core/core.go:298-318 | an overcommitted node listed last lets a request through that the cluster cannot hold |
| GangResource.OrderDecides | wam-scheduler/pkg/coscheduling/core/core.go:298-318 | two consistent nodes for which the check takes 8 in one order, not in the other, and the cluster has 5 |

## Left out

- Kubernetes, Redis and HTTP clients, informers, logging, JSON and plugin construction: plumbing, present as atomic steps or input data.
- Configuration types under `apis/config` and generated code.
- Pod fingerprints and the timing of `Resync`: replaced by the hypothesis on flushed data.
- `createNUMANodeList` and its id and cost parsing: the models start from the list it returns.
- `leastNUMAPodScopeScore`: one call of the modelled search on the effective request, followed by the modelled normalisation.
- `MoveHandler`: it logs errors and goes on, so it decides nothing about the order of its steps.
- The error values `CreateHandler` returns: overwritten on the way.
- `PodEligibleToPreemptOthers`, `calculateNumCandidates`, candidate scoring: single comparisons or left to the framework.
- The gap between taking the snapshot and reading the live ledger in the capacity plugin's `PreFilter`: modelled as one step.
- Coscheduling's `PreFilter`, permit and waiting: timing of the framework's waiting pods.
- Trimaran and balanced-allocation scoring: floating-point statistics.
- `QOSSort`, `TopologicalSort`: each compares two pods by a key; the framework sorts.
- `PodState`, `NodeResourcesAllocatable`: sums over one node, rescaled linearly to the score range.
- Network costs: per-dependency costs looked up in sorted lists and added up, with no decision depending on another.
- Pod-group phases: a status field set from counts of pods by one chain of comparisons.
- The cross-node preemption plugin: its code is commented out.
- NumaScore.TraceConserves: does not promise conservation for a node list that is not ordered by id, because the code drains positions by id; `NumaOrder.RightExactly` gives the exact condition.
- NumaOrder.PanicsExactly: is about Guaranteed pods; for other QoS classes the score ignores how much CPU, memory and huge pages a NUMA node has, so a node that has nothing can be drained too; `NumaOrder.NeverPanicsExactly` covers all classes where every node has something.
- The counts behind the cache's foreign and discarded marks: they are only logged, and whether a node is counted at all decides.
- GetBits: bit masks are sets of bit numbers, so 64-bit words and their operations are not modelled.
