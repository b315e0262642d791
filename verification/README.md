# Telescope: a verified model of its scaling, manifest and log algorithms

Telescope drives cloud and Kubernetes benchmarks. This Dafny project models the parts of its
Python modules that make decisions over time, and proves what whole runs of them guarantee,
whatever the remote side answers:

- **Machine scale-out** (`MachineNames`, `MachineBatch`, `Retries`, `ArmPool`, `FailureReport`,
  `Readiness`, `Operations`, `MachineScale`): naming machines, sharding them over workers that finish or fail in
  any order, retrying throttled requests, waiting for the agent pool, watching percentiles of Ready
  nodes while looking out for failures in ARM, and recording the outcome. The environment is one
  object, `ArmPool.Pool`, whose world (clock, ARM states, Ready nodes) moves on its own between any
  two requests; it only promises that the clock never goes back and terminal states stay. The pool
  keeps a history of every request with its outcome, and of every sleep; what the waits and the whole
  scale-out promise is stated on that history.
- **Node-pool life cycles** (`ScalingPlan`, `StageRecord`, `EksLifecycle`, `AksLifecycle`): the two
  planners for progressive scaling, and create, scale up, scale down and delete over them. Any call may
  fail, and a call that is reported to fail may still have taken effect. The control plane records all
  calls, and the stages are specified by what they call.
- **Manifests** (`Manifests`, `ManifestEngine`, `ManifestUndo`): recursive expansion, create-or-patch apply and
  reverse-order delete over a cluster that maps kind, API group, namespace and name to an object. A
  request may be refused, or take effect although it is reported to fail.
- **Logs** (`TerraformLog`, `CsiMonitor`, `CsiResults`): the four-variable Terraform log processor
  against a declarative segmentation, and the sequential threshold monitors with their shared file.
- **Supporting algorithms** (`KwokAddress`, `ReportName`, `Text`): mixed-radix IPv4 addresses, report
  names, and the decimal and delimiter handling under them.

Code that changes things step by step is a method or a class here, proved against a specification
function or predicate; the lemmas then say what that specification guarantees.

Exceptions are `Err` values or `Some(error)`. Remote answers are oracles: functions from the attempt
(and worker) number to the answer where a loop's exact outcome is stated, and arbitrary choices made
by the environment objects elsewhere. An attempt that raises instead of answering a batch request is
an answer with a status that is neither a success nor 429.

## What the proofs found

- The watcher reads the clock for its guard and again before it lists machines. The number of
  listings can therefore exceed `ceil(timeout / 30 s)`, by one, but only if the last listing starts at
  or after the first multiple of 30 s that is not before the deadline (`Readiness.ListingsAreBounded`,
  with a state of the loop in which it happens in `Readiness.ExtraListing`).
- When the snapshot of the Ready nodes fails, the baseline is 0 although nodes may be Ready. These then
  count: without a single new node, P100 is met exactly if there are as many old nodes as new machines
  (`Readiness.OldNodesCountIff`). Failing early gives up nothing exactly if the failed machines outnumber
  the nodes the baseline missed, which always holds when the snapshot succeeded
  (`ArmPool.FailureIsFinalIff`, with a failing input in `MachineScale.LostSnapshotMisleads`).
- A negative `step_wait_time` makes `time.sleep` raise after the creation, so the pool is left as
  created and nothing more is called: the later stages are entered exactly when the creation succeeded
  and the wait is not negative (`EksLifecycle.All`, `AksLifecycle.All`). Inside the delete stage the
  deletion itself is skipped when fetching metadata raises first.
- The two planners agree exactly when there is something to scale and, if scaling is progressive, the
  step is at least 1. At the right size AKS requests nothing and EKS sends an update; for a negative
  step AKS plans the target alone and EKS raises on the last element of an empty list; both raise for
  step 0 (`ScalingPlan.CloudsPlanAlike`).
- A complete AWS run sends only configurations with `minSize <= desiredSize <= maxSize` exactly when
  `node_count <= target_count` (`EksLifecycle.ConsistentIffGrowing`).
- Only apply falls back to the namespace "default"; a namespaced manifest applied without one cannot
  be deleted (`ManifestEngine.DeleteSucceedsIffDeletable`, `ManifestEngine.NamespaceDefaultsOnlyInApply`).
- Delete skips manifests without a name, but the server creates objects for those with `generateName`.
  Among manifests that can all be applied and deleted, delete is sure to undo apply exactly if each has
  a name of its own (`ManifestUndo.UndoIsSafeIff`, with a failing input in `ManifestUndo.LeftoverJob`).
- Processing two Terraform logs together gives the two results one after the other unless the first
  line of the second log carries the deadline text while the last run of the first has neither a
  completion nor a deadline line (`TerraformLog.LogsConcatenate`, `TerraformLog.DeadlineLeaksBack`).
- A report name round-trips exactly when its measurement does not end in an underscore
  (`ReportName.RoundTripIff`).
- The thresholds of the CSI monitors are graded for every disk count from -1 up and for no other
  (`CsiMonitor.ThresholdsAreGraded`).

## Model

| member | source | states |
|---|---|---|
| MachineNames.ParseNameOfName | modules/python/clients/aks_machine_client.py:530-533 | The size of the run and the index of the machine can be read back from every generated name, with or without the abbreviation of thousands. |
| MachineNames.NamesAreInjective | modules/python/clients/aks_machine_client.py:609-622 | Equal names come from the same run size and the same index, so names never collide within a run or across runs of different sizes. |
| MachineNames.NamesAreDistinct | modules/python/clients/aks_machine_client.py:530-533 | The names of one run are pairwise different. |
| MachineNames.PrefixIs | modules/python/clients/aks_machine_client.py:609-622 | Whole thousands are written as their number of thousands and a `k`, and every other count in full. |
| MachineNames.NameIs | modules/python/clients/aks_machine_client.py:530-533 | Machines are numbered from one after the prefix: the first of a hundred is `scale100-machine-1`. |
| MachineBatch.SlicesPartition | modules/python/clients/aks_machine_client.py:795-817 | For every accepted sharding the slices of the workers, in worker order, concatenate to the list of names. |
| MachineBatch.CreateBatchMachines | modules/python/clients/aks_machine_client.py:835-921 | Every PUT in the history names exactly the chunk, as URL target plus `batchMachines`; there are as many as the retries need; a chunk of more than 50 is refused and an empty one sends nothing; the result is the chunk or an error, as the first unthrottled answer decides. |
| MachineBatch.RunWorker | modules/python/clients/aks_machine_client.py:814-821 | A worker puts exactly its slice, delivers the whole of it if its request lands and nothing otherwise; what landed in the history is what it delivers. |
| MachineBatch.Dispatch | modules/python/clients/aks_machine_client.py:823-833 | For any order of completion, the result is the slices of exactly the workers that succeed, in that order; every worker's slice was put, and what landed in the history is the result. |
| MachineBatch.ScaleMachineBatch | modules/python/clients/aks_machine_client.py:776-833 | Refuses with the right error, before any request, exactly if there are no workers, the count is not a multiple of them, or a slice is over 50; otherwise the shards are even, every name is put in requests for at most 50 machines, and the result gathers the surviving slices in completion order, which is what landed in the history. |
| MachineBatch.GatherIsSound | modules/python/clients/aks_machine_client.py:823-833 | Every delivered name belongs to the slice of some surviving worker. |
| MachineBatch.GatherIsComplete | modules/python/clients/aks_machine_client.py:823-833 | Every name of a surviving worker's slice is delivered. |
| MachineBatch.GatherIsDistinct | modules/python/clients/aks_machine_client.py:823-833 | Under every schedule and every failing subset, no name is delivered twice. |
| MachineBatch.CompleteIffAllSurvive | modules/python/clients/aks_machine_client.py:823-833 | For a non-empty request, as many names land as were asked for if and only if every worker succeeded; never more. |
| MachineBatch.ScaleMachineIndividually | modules/python/clients/aks_machine_client.py:624-649 | One PUT per machine, completing in any order, delivers exactly the accepted names, each once. |
| MachineBatch.CreateSingleMachine | modules/python/clients/aks_machine_client.py:651-680 | One PUT for one machine; true exactly for 200, 201 and 202. |
| MachineBatch.FullLandingIsAll | modules/python/clients/aks_machine_client.py:547-554 | Comparing lengths, as the code does, is enough: a duplicate-free delivery as long as the request is the request. |
| Retries.MakeBatchRequest | modules/python/clients/aks_machine_client.py:949-984 | The history grows by the attempts, each for the same machines; the outcome is that of the first of at most 5 attempts that is not throttled, after `2^k - 1` seconds of sleep for k retries; it succeeds exactly when that answer is 200, 201, 202 or 204. |
| Retries.BatchRequestMeans | modules/python/clients/aks_machine_client.py:949-984 | The attempt that decides is the first whose answer is not 429, or the fifth; it succeeds exactly for 200, 201, 202 and 204; the sleeps add up to 0, 1, 3, 7 or 15 seconds. |
| Retries.ExecuteWithRetries | modules/python/utils/retries.py:9-25 | Returns or raises what the first returning call, or the last one allowed, does, after `backoff * d(d+1)/2` seconds; the trailing return is reached exactly for a negative `max_retries`; a negative backoff makes the first sleep raise. |
| Retries.RunAttempt | modules/python/utils/provisioning_instrumentation.py:115-127 | An operation that is done at once, or after polls whose intervals add up to less than the timeout, yields its own result after that many sleeps; any other attempt times out, or raises at its first sleep if the interval is negative, or never returns if the interval is zero and the timeout positive. |
| Retries.AttemptMeans | modules/python/utils/provisioning_instrumentation.py:115-127 | The same of the specification; a timeout comes after the first sleep at which the intervals add up to the timeout. |
| Retries.BeginWithRetry | modules/python/utils/provisioning_instrumentation.py:86-140 | For all arguments: the outcome is that of the first attempt without a retryable conflict, or of the last one allowed; True is returned exactly when a conflict preceded success, and the trailing return is reached only without any attempt; the sleep is the exact sum over attempts; a negative retry wait makes the first retry raise. |
| Retries.SleptBound | modules/python/utils/provisioning_instrumentation.py:106-139 | n attempts sleep at most n full timeouts, rounded up to the interval, plus n - 1 retry waits. |
| Retries.SleptIs | modules/python/utils/provisioning_instrumentation.py:106-139 | The time asleep is one interval for every poll and one wait between two attempts. |
| ArmPool.Pool.ReadyNodeCount | modules/python/clients/aks_machine_client.py:438-446 | The count is recorded, and is that of the world at the time, or 0 when the listing fails. |
| ArmPool.WaitForAgentPool | modules/python/clients/aks_machine_client.py:226-270 | The history grows by GETs of the agent pool, each but the last followed by a sleep of 10 s; true is returned if and only if the last request was answered 200, JSON, "Succeeded"; false without an answer that says so only after the timeout; at most `ceil(timeout / 10 s)` GETs. |
| ArmPool.WaitMeans | modules/python/clients/aks_machine_client.py:226-270 | The call raises exactly on a last answer that failed or was a 4xx; it returns false after a 200 JSON answer with "Failed" or no state; and every earlier answer was neither, nor "Succeeded": another error, not JSON, or some other state. |
| ArmPool.ListMachines | modules/python/clients/aks_machine_client.py:682-718 | The history grows by one listing: 1 to 50 page requests, each following the link before it; a page that is bad ends it with an error, a missing link ends it normally, and a fiftieth page with a link is an error; whatever it calls terminal is terminal in the world at the end, although pages are read at different times. |
| ArmPool.EntriesInOrder | modules/python/clients/aks_machine_client.py:693-713 | The listing holds the machines of the pages, page after page, each in the order of its page. |
| ArmPool.LastEntryIsLast | modules/python/clients/aks_machine_client.py:733-737 | Of several entries with one name the last counts, and a name without an entry is missing. |
| ArmPool.ReportedFailuresMean | modules/python/clients/aks_machine_client.py:738-756 | A machine is reported if and only if every expected one is listed as "Succeeded", "Failed" or "Canceled", and it is one of the expected that are "Failed" or "Canceled". |
| ArmPool.ReportedFailuresAreTrue | modules/python/clients/aks_machine_client.py:720-756 | If any failure is to be reported, every expected machine is terminal and the failures are exactly the failed ones. |
| ArmPool.TerminalProvisioningFailures | modules/python/clients/aks_machine_client.py:720-756 | For the paginated query: a non-empty answer means that all expected machines are terminal when it is given, and is the sorted report of the failed ones; if the listing shows every expected machine as it is and all are terminal, the answer is that report. |
| FailureReport.Report | modules/python/clients/aks_machine_client.py:753-756 | The report of a set of failures is computed by taking the least name, up to ten times. |
| FailureReport.ReportIsSorted | modules/python/clients/aks_machine_client.py:753-756 | The report is strictly sorted, has ten of the failed names or all of them, and none of the others comes before any of it. |
| FailureReport.ReportIsUnique | modules/python/clients/aks_machine_client.py:753-756 | No other list has these properties. |
| FailureReport.PrecedesIff | modules/python/clients/aks_machine_client.py:755-755 | The order is that of the first difference, where a proper prefix comes first. |
| ArmPool.TerminalPersists | modules/python/clients/aks_machine_client.py:720-757 | Once all expected machines are terminal, they are so in every later world, with the same failures. |
| ArmPool.FailureIsFinalIff | modules/python/clients/aks_machine_client.py:359-366 | Once all machines are terminal, the nodes asked for are out of reach in every later world if and only if the failed machines outnumber the Ready nodes that the baseline missed. |
| Readiness.TargetIsLeast | modules/python/clients/aks_machine_client.py:311-319 | The target of percentile p is the least number above the baseline that is at least p percent of baseline + expected. |
| Readiness.TargetsAreOrdered | modules/python/clients/aks_machine_client.py:311-319 | So targets do not decrease with the percentile, lie in (baseline, baseline + expected], and P100 asks for baseline + expected. |
| Readiness.FirstHitIsFirst | modules/python/clients/aks_machine_client.py:367-374 | If poll i is the first with enough Ready nodes, the recorded time is that of poll i, even if counts drop later. |
| Readiness.HitIsReached | modules/python/clients/aks_machine_client.py:367-374 | A recorded time is always that of a first poll that met the target. |
| Readiness.NoHit | modules/python/clients/aks_machine_client.py:367-374 | A target that no poll meets is not recorded. |
| Readiness.RecordHits | modules/python/clients/aks_machine_client.py:367-371 | One turn keeps every time recorded earlier and adds its own for exactly the percentiles it meets first. |
| Readiness.PercentilesFormPrefix | modules/python/clients/aks_machine_client.py:367-374 | For every sequence of ready counts, met percentiles form a prefix of 50, 70, 90, 99, 100 and their times never decrease. |
| Readiness.P100ImpliesAll | modules/python/clients/aks_machine_client.py:598-604 | Success at P100 implies success at every percentile, which the caller relies on. |
| Readiness.BaselineNeverCounts | modules/python/clients/aks_machine_client.py:312-315 | If no poll sees more than the baseline, no percentile is ever met. |
| Readiness.OldNodesCountIff | modules/python/clients/aks_machine_client.py:514-528 | If no node joins, a percentile is met if and only if its target is within the nodes that were Ready before: never with a right baseline, and for P100 with baseline 0 exactly if the old nodes are as many as the new machines. |
| Readiness.HitIsObserved | modules/python/clients/aks_machine_client.py:367-374 | A percentile is recorded only if the history holds a node count that reaches its target. |
| Readiness.RecordedSummarises | modules/python/clients/aks_machine_client.py:422-436 | The envelope built from the recorded times reports, for every percentile, its target and its first hit, and success exactly if there is one. |
| Readiness.CadenceOrdersTimes | modules/python/clients/aks_machine_client.py:331-387 | The times recorded by successive turns never decrease. |
| Readiness.ListingsAreSpaced | modules/python/clients/aks_machine_client.py:332-358 | The last of k machine listings starts at least k - 1 intervals of 30 s into the watch. |
| Readiness.ListingsAreBounded | modules/python/clients/aks_machine_client.py:331-358 | At most `ceil(timeout / 30 s)` listings, and one more only if the last one starts no earlier than that many intervals into the watch. |
| Readiness.ListingRequestsAreSpaced | modules/python/clients/aks_machine_client.py:332-358 | Any two page requests of different listings are at least 30 s apart in the history. |
| Readiness.RequestsOfTurns | modules/python/clients/aks_machine_client.py:331-387 | In the history every turn has one node count, and between 1 and 50 page requests if it lists the machines and none otherwise. |
| Readiness.RequestsAreBounded | modules/python/clients/aks_machine_client.py:331-387 | A watch makes at most `50 * (ceil(timeout / 30 s) + 1)` page requests and `ceil(timeout / 2 s) + ceil(timeout / 30 s) + 1` node counts. |
| Readiness.ExtraListing | modules/python/clients/aks_machine_client.py:331-336 | A state that satisfies the whole invariant of the loop, and whose requests and sleep are a history of the pool, in which the extra listing was made after a guard passed just before the deadline. |
| Readiness.TurnsAreBounded | modules/python/clients/aks_machine_client.py:375-387 | Turns without a listing number at most `ceil(timeout / 2 s)`, so the whole watch is bounded. |
| Readiness.NodeCountsAreSpaced | modules/python/clients/aks_machine_client.py:375-387 | Node counts of successive turns are at least 2 s apart in the history unless the later turn lists the machines: a turn that does not sleep never leads to another bare poll. |
| Readiness.Observe | modules/python/clients/aks_machine_client.py:332-366 | The history grows by one node count and, exactly when the check is due, one listing; the count and the failures are those that were answered; the next check is due 30 s after this one ended; failures are reported only if they are the truth about a pool with nothing left to wait for. |
| Readiness.Rest | modules/python/clients/aks_machine_client.py:375-387 | The sleep, and nothing else, is recorded; it lasts until the earliest of the next poll, the next check and the deadline, and is left out if that has passed. |
| Readiness.NextWakeIsFirst | modules/python/clients/aks_machine_client.py:376-385 | The sleep is decided by the first of the next poll in 2 s, the deadline and the next listing. |
| Readiness.DueIs | modules/python/clients/aks_machine_client.py:322-358 | A listing is due at once, and then 30 s after the last one was answered; never without names. |
| Readiness.Turn | modules/python/clients/aks_machine_client.py:331-387 | Every turn adds exactly its queries and its sleep to the history, keeps the loop invariant (first-hit summary, cadence, punctual listings and sleeps, genuine queries) and advances the clock unless all percentiles are met, or ends the watch with a true failure and the summary of the turns before. |
| Readiness.WatchNodes | modules/python/clients/aks_machine_client.py:331-388 | The loop terminates, and the history grows by exactly the events of its turns, which lie between its start and its end. A turn lists the machines if and only if that is due, and sleeps until the next wake-up. No turn but the last learns of final failures, and before every turn some percentile is unmet. A normal end has all percentiles met or the deadline passed and carries the first-hit summary of the node counts answered; a failing end carries that of the turns before, and the report of the failed machines. |
| Readiness.WaitForReadiness | modules/python/clients/aks_machine_client.py:272-420 | The same for the whole function; for every percentile the envelope reports the least number above the baseline that is at least that percentage of all nodes; no request and an empty envelope for `expected_count <= 0`; no listings without machine names. |
| Operations.Operation.End | modules/python/crud/operation.py:54-81 | Ends the record; it is a success exactly if success is claimed and there is no error; without an error an earlier one is kept. |
| Operations.Operation.Exit | modules/python/crud/operation.py:209-220 | The record is a success exactly if the block raised nothing, and otherwise holds what was raised. |
| MachineScale.Submit | modules/python/clients/aks_machine_client.py:535-554 | Both ways to submit machines deliver only requested names, none twice, and all of them exactly when every request was accepted; unless the sharding is refused, the history shows a PUT for every name, and what landed there is what is delivered. |
| MachineScale.CountAndSubmit | modules/python/clients/aks_machine_client.py:512-554 | The baseline is counted before any machine is put. |
| MachineScale.BatchDelivers | modules/python/clients/aks_machine_client.py:776-833 | The promise of `Submit` for every completion order of the batch workers. |
| MachineScale.SinglesDeliver | modules/python/clients/aks_machine_client.py:624-649 | The promise of `Submit` for one request per machine. |
| MachineScale.FailedRunIsSound | modules/python/clients/aks_machine_client.py:359-366 | The failures reported by a run are the truth, and P100 is out of reach in every later world if and only if they outnumber the nodes that the baseline missed; so always if the snapshot was right: failing early gives up nothing. |
| MachineScale.LostSnapshotMisleads | modules/python/clients/aks_machine_client.py:514-528 | The failing input: the snapshot fails while one node is Ready and the only machine fails; the target of P100 is then met although the watch gave up on it. |
| MachineScale.CompleteReadiness | modules/python/clients/aks_machine_client.py:598-604 | The single P100 test made by the caller implies that every percentile was met. |
| MachineScale.WatchAndRecord | modules/python/clients/aks_machine_client.py:571-597 | The history grows by a genuine watch over the baseline and one read of the cluster; the metadata holds the envelope, its P100 time and, on failure, the failed machines. |
| MachineScale.AchievedIff | modules/python/clients/aks_machine_client.py:592-604 | After a full landing, what the caller tests in the end (snapshot, failure, agent pool, P100) holds if and only if everything asked for was achieved. |
| MachineScale.AwaitMachines | modules/python/clients/aks_machine_client.py:556-604 | The two waits, entered after a full landing, make exactly the requests of their stages, in order; an agent pool wait without a verdict takes up its timeout before the watch starts; the call raises the first failure in the order of the tests, or none if and only if everything was achieved. |
| MachineScale.ScaleBody | modules/python/clients/aks_machine_client.py:509-607 | The history grows by exactly the baseline count, the PUTs, the agent pool wait, the watch and the cluster read, as far as the run got; no wait after a partial landing; what is raised is the first failure of the run, and nothing is if and only if all requested names landed, the agent pool succeeded, all five percentiles were met and the cluster was read. |
| MachineScale.ScaleMachine | modules/python/clients/aks_machine_client.py:448-607 | The recorded operation is ended, is a success exactly if the call returns normally, and holds the error it raised, which names the first failure of the run. A normal return means that the history shows accepted PUTs for exactly the requested names, then a GET answered 200, "Succeeded" and, after it, a moment with `count` more Ready nodes than the baseline; anything requested after the PUTs means that every machine landed; a failed watch is sound; the metadata matches what happened. |
| MachineScale.FailureMeans | modules/python/clients/aks_machine_client.py:509-607 | What each error stands for, in terms of what landed, the result of the agent pool wait, the watch and the cluster read. |
| MachineScale.CrudScaleMachine | modules/python/crud/azure/machine_crud.py:62-87 | The boolean, the record and the outcome agree in every run, and True is backed by the history. |
| MachineScale.RunIsSound | modules/python/clients/aks_machine_client.py:448-607 | What any run that happened implies: success is visible in the history, requests after the PUTs imply a full landing there, and failures are sound. |
| ScalingPlan.PlanIsProgressive | modules/python/clients/aks_client.py:839-857 | The plan is strictly monotone, ends at the target, takes full steps except a last one in 1..step, and has `ceil(distance / step)` sizes. |
| ScalingPlan.PlanWithin | modules/python/clients/eks_client.py:911-928 | No planned size leaves an interval that holds both ends. |
| ScalingPlan.PlanIsArithmetic | modules/python/clients/aks_client.py:839-857 | The i-th size is i + 1 steps from the current one, but not past the target. |
| ScalingPlan.ClosedRangeIsPlan | modules/python/clients/eks_client.py:911-928 | A Python range closed at the target is that plan. |
| ScalingPlan.AksSteps | modules/python/clients/aks_client.py:839-857 | The AKS planner returns the reference plan for a step of at least 1 when there is something to scale, the target alone for a negative step or equal sizes, and raises for step 0. |
| ScalingPlan.EksSteps | modules/python/clients/eks_client.py:911-928 | The EKS planner returns the reference plan whenever its range is not empty and the sizes differ, and raises otherwise. |
| ScalingPlan.AksPathMeans | modules/python/clients/aks_client.py:608-640 | The AKS client requests nothing at the right size, the target alone without progressive scaling or for a negative step, raises for step 0, and else takes the arithmetic path. |
| ScalingPlan.EksPathMeans | modules/python/clients/eks_client.py:707-716 | The EKS client requests the target alone without progressive scaling or within one step, also at the right size; else it takes the arithmetic path, or raises for a step that is not positive. |
| ScalingPlan.CloudsPlanAlike | modules/python/clients/eks_client.py:707-716 | Both clients request the same sizes if and only if the sizes differ and, when progressive, the step is at least 1. |
| ScalingPlan.EksLoopReachesTarget | modules/python/clients/eks_client.py:707-716 | When the EKS client enters its loop, `steps[-1]` is defined if and only if the step is at least 1; the loop then has at least two steps, strictly closer each time, ends at the target, and is the AKS plan. |
| EksLifecycle.CreateNodeGroup | modules/python/clients/eks_client.py:473-481 | Creation sends at most one configuration, with the node count as minimum and desired size and a maximum of at least 1, and stops at its first failing call; success means that no call failed and the configuration took effect on a group that did not exist. |
| EksLifecycle.ScaleDirect | modules/python/clients/eks_client.py:718-756 | One update is sent that keeps the minimum and raises the maximum to the size if needed; it is in effect on success. |
| EksLifecycle.ScaleNodeGroup | modules/python/clients/eks_client.py:646-802 | The group is described first; then the sizes requested are a prefix of the planned path, nothing is called after a failing call, and the call succeeds if and only if planning and all calls do, with the whole path requested and its end reached; every configuration keeps the minimum and has room for its size. |
| EksLifecycle.ProgressiveScale | modules/python/clients/eks_client.py:881-964 | The same for the step loop: it stops at the first failing step, having requested a prefix of the plan. |
| EksLifecycle.DeleteNodeGroup | modules/python/clients/eks_client.py:804-879 | The group is looked at, whether that works or not, the metadata is read, and the group is deleted once, unless reading the metadata raises; success means that the group is gone. |
| EksLifecycle.ConsistentIffGrowing | modules/python/clients/eks_client.py:473-481 | A run that scales up without failures sends only configurations with minimum <= desired <= maximum if and only if `node_count <= target_count`. |
| EksLifecycle.ScaleAndDelete | modules/python/crud/aws/node_pool_crud.py:209-255 | The calls after a creation are those of scaling up, then of scaling down, then of deleting: each stage is entered whatever became of the ones before, and works from the size it finds, which is the creation size or one requested since, and the last one if the stage before succeeded. |
| EksLifecycle.LifeIsBounded | modules/python/crud/aws/node_pool_crud.py:182-280 | Whatever fails, every size requested in a run lies between the two counts. |
| EksLifecycle.LifeIsPlanned | modules/python/crud/aws/node_pool_crud.py:182-280 | A run that scales up and down without failures requests exactly the creation size, the path up and the path down. |
| EksLifecycle.All | modules/python/crud/aws/node_pool_crud.py:153-280 | The recorded calls of every run are those of its stages: creation; and scaling up, scaling down and deletion exactly if the creation succeeded and the wait is not negative, each from the size it finds. For a negative wait nothing is deleted and the group is as created. True exactly if all four stages succeeded; every size lies between the two counts, every update keeps the minimum and makes room; if `node_count <= target_count`, all configurations have minimum <= desired <= maximum; an existing group makes the creation fail; a True run deleted once, leaves no group and requested exactly the planned sizes. |
| EksLifecycle.CleanRunSucceeds | modules/python/crud/aws/node_pool_crud.py:182-280 | A run in which no call fails succeeds, unless its wait is negative or it scales progressively by a step below 1. |
| AksLifecycle.StepsWithin | modules/python/clients/aks_client.py:839-857 | Every AKS plan, for any accepted step, ends at the target and stays between the two sizes. |
| AksLifecycle.ScaleNodePool | modules/python/clients/aks_client.py:570-723 | The pool is read first; if it has the right size, nothing is requested and the call succeeds; else the counts requested are a prefix of the planned path, nothing is called after a failing call, and the call succeeds if and only if planning and all calls do, with the whole path requested and its end reached. |
| AksLifecycle.ProgressiveScale | modules/python/clients/aks_client.py:798-960 | The same for the step loop: it stops at the first failing step, having requested a prefix of the plan. |
| AksLifecycle.DeleteNodePool | modules/python/clients/aks_client.py:725-796 | The pool is read, whether that works or not, the metadata is read, and the pool is deleted once, unless reading the metadata raises; success means that the pool is gone. |
| AksLifecycle.All | modules/python/crud/azure/node_pool_crud.py:183-322 | The Azure counterpart of the AWS run: which stages make calls and from which count, the result, the pool left as created after a negative wait, bounds on every requested count, and the exact counts of a True run. |
| AksLifecycle.CleanRunSucceeds | modules/python/crud/azure/node_pool_crud.py:218-322 | A run in which no call fails succeeds, unless its wait is negative or it scales progressively by a step below 1; also when the two counts are equal. |
| StageRecord.CleanIff | modules/python/crud/azure/node_pool_crud.py:218-322 | What fails a stage: a look that finds no pool, or a request, wait or deletion that is not ok. |
| AksLifecycle.ScaleAndDelete | modules/python/crud/azure/node_pool_crud.py:246-304 | Each stage after the creation is entered whatever became of the ones before, and works from the count it finds. |
| AksLifecycle.LifecyclesAgree | modules/python/crud/azure/node_pool_crud.py:183-322 | Fault-free runs request the same sizes on both clouds if and only if the counts differ and, when progressive, the step is at least 1. |
| Manifests.ExpandAndValidate | modules/python/clients/kubernetes_client.py:1317-1355 | Expansion terminates on every finite nesting and returns the leaves. |
| Manifests.LeavesConcat | modules/python/clients/kubernetes_client.py:1317-1355 | Expansion distributes over concatenation. |
| Manifests.ExpansionIsIdempotent | modules/python/clients/kubernetes_client.py:1317-1355 | Expanding an expansion changes nothing. |
| Manifests.LeavesAreLocated | modules/python/clients/kubernetes_client.py:1317-1355 | Every result is the mapping at some position of the nested documents, and the positions increase from left to right. |
| Manifests.EveryLeafIsFound | modules/python/clients/kubernetes_client.py:1317-1355 | Every non-List mapping at any depth is among the results. |
| ManifestEngine.KubernetesClient.ApplySingle | modules/python/clients/kubernetes_client.py:1357-1502 | On a normal return the object of a handled manifest, under its own or a generated name, is what it was before, or new, with the manifest merged into it, and nothing else changes; a manifest with a name and requests that are served is always applied; unsupported and exempt manifests are skipped; a refused request leaves the cluster unchanged, a lost one has its effect. |
| ManifestEngine.KubernetesClient.UpdateSingle | modules/python/clients/kubernetes_client.py:1504-1681 | On a normal return the existing object has the manifest merged into it; raises without a namespace for namespaced kinds, without a name, or if the object is missing; a refused patch leaves the cluster unchanged, a lost one has its effect. |
| ManifestEngine.KubernetesClient.DeleteSingle | modules/python/clients/kubernetes_client.py:1683-1878 | On a normal return the object is gone; a request that is served fails only for a missing object that is not to be ignored; skips manifests without a name; raises without a namespace for namespaced kinds; a lost deletion has its effect. |
| ManifestEngine.KubernetesClient.ApplyManifests | modules/python/clients/kubernetes_client.py:1034-1062 | The driver applies the expanded manifests in order up to the first error. |
| ManifestEngine.KubernetesClient.DeleteManifests | modules/python/clients/kubernetes_client.py:1064-1095 | The driver deletes the expanded manifests in reverse up to the first error. |
| ManifestEngine.ApplyStaysWithinKeys | modules/python/clients/kubernetes_client.py:1054-1056 | Complete or abandoned, and whatever requests are refused or lost, an apply leaves every object untouched whose key its manifests neither name nor generate. |
| ManifestEngine.ApplyInstallsKeys | modules/python/clients/kubernetes_client.py:1054-1056 | An apply that returns normally leaves an object for every manifest it acts on and adds no other; generated names are new. |
| ManifestEngine.ApplyMerges | modules/python/clients/kubernetes_client.py:1034-1062 | After an apply that returns normally, every object is what it was before, followed by exactly the handled manifests for it, in document order. |
| ManifestEngine.LastManifestWins | modules/python/clients/kubernetes_client.py:1052-1056 | The last manifest for an object is the last one merged into it. |
| ManifestEngine.ApplyKeyIs | modules/python/clients/kubernetes_client.py:1357-1372 | Where an object is put: cluster-wide kinds without a namespace, others in the override, or else the namespace of the manifest, or else "default"; custom kinds in the group of their `apiVersion`. |
| ManifestEngine.ScopesAre | modules/python/clients/kubernetes_client.py:1373-1493 | The namespaced, the cluster-wide and the custom kinds; all others are skipped. |
| ManifestEngine.GroupIs | modules/python/clients/kubernetes_client.py:1425-1434 | An `apiVersion` is a version, or a group and a version; with more slashes it raises. |
| ManifestEngine.DeleteRemovesKeys | modules/python/clients/kubernetes_client.py:1082-1089 | A delete that returns normally leaves the cluster minus exactly the keys of its manifests. |
| ManifestEngine.DeleteUndoesApply | modules/python/clients/kubernetes_client.py:1034-1095 | For every cluster, documents, override and fate of the requests, duplicates included: an apply, even an abandoned one, and then a delete that returns normally leave the initial cluster minus exactly the keys the manifests name, up to objects whose names the server generated. |
| ManifestEngine.UndoIsCompleteIff | modules/python/clients/kubernetes_client.py:1034-1095 | When both return normally, the undoing is complete if and only if every generated name is also the name of some manifest. |
| ManifestEngine.NothingGenerated | modules/python/clients/kubernetes_client.py:1357-1502 | Without a manifest that has `generateName` and no name, no name is generated, so the undoing is complete. |
| ManifestUndo.UndoIsSafeIff | modules/python/clients/kubernetes_client.py:1034-1095 | For every cluster, documents and override: whatever becomes of the requests and however the server names objects, an apply and a delete that return normally undo each other, if and only if no manifest leaves its name to the server or one of them can never be applied or deleted. |
| ManifestUndo.LeftOver | modules/python/clients/kubernetes_client.py:1034-1095 | Otherwise there is a run without any failure that leaves an object over. |
| ManifestUndo.LeftoverJob | modules/python/clients/kubernetes_client.py:1683-1702 | The failing input: a Job that has only a `generateName` survives its own deletion. |
| ManifestUndo.LongNamesWork | modules/python/clients/kubernetes_client.py:1357-1502 | A server that generates long enough names can apply every list whose manifests are all appliable. |
| ManifestUndo.ApplyNeedsAppliable | modules/python/clients/kubernetes_client.py:1357-1502 | An apply that returns normally had only manifests that are skipped, or have a readable `apiVersion` where needed and a name or `generateName`. |
| ManifestEngine.DeleteSucceedsIffDeletable | modules/python/clients/kubernetes_client.py:1683-1878 | Without refusals and ignoring missing objects, a delete returns normally if and only if every manifest is skipped or has a readable `apiVersion` where needed and, for namespaced kinds, an explicit namespace. |
| ManifestEngine.NamespaceDefaultsOnlyInApply | modules/python/clients/kubernetes_client.py:1357-1372 | A ConfigMap applied without a namespace lands in "default" and the matching delete raises and removes nothing. |
| TerraformLog.TimeToSeconds | modules/python/terraform/extract_terraform_operation_metadata.py:20-34 | Adds up all digit runs that are followed by a unit, in any string. |
| TerraformLog.DurationsAreExact | modules/python/terraform/extract_terraform_operation_metadata.py:20-34 | Each of the four forms the patterns capture denotes the number of seconds it spells out. |
| TerraformLog.ProcessLogs | modules/python/terraform/extract_terraform_operation_metadata.py:63-122 | The loop over lines returns the records of the segmentation; each tells, in order, of one completion line (its path and seconds, a success that did not time out) or of one start without a completion (its path, a failure with the seconds of the run's last elapsed time or 0, timed out if and only if a deadline line lies in the run or starts the next one). |
| TerraformLog.RecordsTell | modules/python/terraform/extract_terraform_operation_metadata.py:79-117 | The same of the specification. |
| TerraformLog.OriginsAre | modules/python/terraform/extract_terraform_operation_metadata.py:79-117 | The lines told of are exactly the completions and the starts of runs without one, in order. |
| TerraformLog.ProcessorSegments | modules/python/terraform/extract_terraform_operation_metadata.py:79-119 | From every state of the four variables, processing gives, run by run, the completions in order, or else one failure with the last elapsed time (or 0s) and whether a deadline line occurred up to and including the next start. |
| TerraformLog.LogsRecordEveryStart | modules/python/terraform/extract_terraform_operation_metadata.py:79-119 | There are at least as many records as start lines. |
| TerraformLog.EveryStartIsRecorded | modules/python/terraform/extract_terraform_operation_metadata.py:91-101 | The same for a log that begins with a start: every run yields a record. |
| TerraformLog.LogsConcatenate | modules/python/terraform/extract_terraform_operation_metadata.py:84-101 | The records of A followed by B, where B begins with a start, are those of A and then those of B if and only if it is not the case that B's first line carries the deadline text and the last run of A has neither a completion nor a deadline line. |
| TerraformLog.StateOfLastRun | modules/python/terraform/extract_terraform_operation_metadata.py:79-119 | What the four variables hold about the last run is what the lines after its start say. |
| TerraformLog.DeadlineLeaksBack | modules/python/terraform/extract_terraform_operation_metadata.py:84-101 | The failing input: two logs of one start each, where the deadline on the second is also reported for the first. |
| CsiMonitor.ThresholdsAreGraded | modules/python/csi/csi.py:125-128 | Attach targets do not decrease and detach targets do not increase, for every disk count from -1 up and for no other. |
| CsiMonitor.PercentilesAre | modules/python/csi/csi.py:28-33 | Percentiles of the disk count are rounded down. |
| CsiMonitor.ThresholdsAre | modules/python/csi/csi.py:125-128 | Attach thresholds are the percentiles, detach thresholds what they leave, under the same four names. |
| CsiMonitor.WaitForCondition | modules/python/csi/csi.py:94-106 | Returns at the first poll from its start that satisfies the target. |
| CsiMonitor.NextHitIsFirst | modules/python/csi/csi.py:94-106 | No poll between the start and the reported one satisfies the target; the reported one does. |
| CsiMonitor.LogFile.LogDuration | modules/python/csi/csi.py:84-92 | Appends one entry with the whole seconds on the clock, or raises and writes nothing if the description has a colon. |
| CsiMonitor.MonitorThresholds | modules/python/csi/csi.py:108-112 | Appends one entry per threshold met, in order, each with the clock reading made after its own poll; stops early only at a refused description or when the polls run out. |
| CsiMonitor.LoggedMeans | modules/python/csi/csi.py:84-112 | An entry is named by the monitor and the threshold and holds the whole seconds between the start and the clock reading. |
| CsiMonitor.HitsInTurn | modules/python/csi/csi.py:108-112 | Each threshold is met by the first satisfying poll strictly after the one that met the threshold before. |
| CsiMonitor.SequentialTracksIndependent | modules/python/csi/csi.py:94-112 | On monotone observations the j-th threshold (from 0) is logged no earlier than an independent watcher would log it and at most j polls later. |
| CsiMonitor.EveryThresholdIsLogged | modules/python/csi/csi.py:94-112 | With j polls after each independent first hit, every threshold is logged. |
| CsiMonitor.HitsIncrease | modules/python/csi/csi.py:108-112 | Whatever is observed, thresholds are logged at strictly increasing polls. |
| CsiMonitor.DurationsNeverDecrease | modules/python/csi/csi.py:84-92 | With a clock that never goes back, logged durations never decrease. |
| CsiResults.Collect | modules/python/csi/csi.py:204-211 | The parsing loop over the file's text builds the table in which the last line of a key wins. |
| CsiResults.LastLineWins | modules/python/csi/csi.py:206-211 | A metric has the value of the last line that names it. |
| CsiResults.MetricsAreLines | modules/python/csi/csi.py:206-211 | Every metric is named by some line. |
| CsiResults.ParseLineIs | modules/python/csi/csi.py:208-211 | A line counts if it has a colon; before the first one is the name, after it the value, both stripped, the name with underscores for spaces. |
| CsiResults.StripIs | modules/python/csi/csi.py:210-210 | Stripping removes blanks at both ends and leaves none there. |
| CsiResults.ParseOfLine | modules/python/csi/csi.py:206-211 | Parsing a logged line gives back its underscored description and its duration. |
| CsiResults.SplitLinesOfContent | modules/python/csi/csi.py:84-92 | Splitting the text of the file gives the lines that were written, for descriptions without line breaks. |
| CsiResults.MetricsRecoverLog | modules/python/csi/csi.py:204-211 | With distinct underscored descriptions the table holds exactly the entries of the log. |
| CsiResults.CollectUndoesLog | modules/python/csi/csi.py:142-169 | Under every interleaving of the whole lines of two monitors, collecting recovers every description with its own duration and nothing else. |
| CsiResults.MonitorsLog | modules/python/csi/csi.py:127-193 | What `monitor_thresholds` appends for the three monitors has the twelve descriptions of the run, in order, given literally. |
| CsiResults.AttachDetachIsRecovered | modules/python/csi/csi.py:136-211 | For the descriptions a run really logs, and any interleaving of the first two monitors followed by the third, the results hold exactly what was logged. |
| KwokAddress.GenerateNodeIp | modules/python/kwok/kwok.py:241-254 | For valid base octets it succeeds exactly if base + index is below 2^32, and the octets then encode base + index; they are valid whenever that sum is not negative. |
| KwokAddress.NodeAddresses | modules/python/kwok/kwok.py:129-133 | The nodes created have consecutive addresses; the loop raises exactly if the address space runs out, after the nodes that fit have been created. |
| KwokAddress.ConsecutiveAddressesDiffer | modules/python/kwok/kwok.py:129-133 | Different nodes get different, valid addresses. |
| KwokAddress.NumberIsInjective | modules/python/kwok/kwok.py:241-254 | Valid octets that encode the same number are the same. |
| KwokAddress.DottedIs | modules/python/kwok/kwok.py:254-254 | The octets are written in order, between dots. |
| KwokAddress.ParseOfDotted | modules/python/kwok/kwok.py:254-254 | The dotted form is an IPv4address of section 3.2.2 of RFC 3986 and parses back to the octets. |
| KwokAddress.DottedIsInjective | modules/python/kwok/kwok.py:254-254 | Different addresses have different dotted forms. |
| ReportName.GetMeasurement | modules/python/clusterloader2/utils.py:82-131 | The branches and search loops compute the measurement and the group of a name, nothing for unknown names, and raise for names with too few parts. |
| ReportName.ReportIs | modules/python/clusterloader2/utils.py:88-91 | A name known by a prefix without underscores yields that prefix and what stands between its first two underscores. |
| ReportName.NoGroup | modules/python/clusterloader2/utils.py:88-91 | Such a name without an underscore raises. |
| ReportName.UnknownIff | modules/python/clusterloader2/utils.py:82-131 | A name yields nothing if and only if no known prefix starts it, or it is a query's without a separator or without a later part that looks like a timestamp. |
| ReportName.PodReportIs | modules/python/clusterloader2/utils.py:84-87 | A pod startup report yields the two words it is known by and the third part of its name. |
| ReportName.StripUnderscoresIs | modules/python/clusterloader2/utils.py:113-113 | Only underscores at the end are removed, and all of them. |
| ReportName.FirstMatchIsLongest | modules/python/clusterloader2/utils.py:82-131 | The first prefix that matches in the order of the branches is the longest known prefix of the name. |
| ReportName.ParsingInvertsFormat | modules/python/clusterloader2/utils.py:92-115 | Parsing a query report's name gives back its group, and its measurement without trailing underscores, whatever else the measurement contains. |
| ReportName.RoundTripIff | modules/python/clusterloader2/utils.py:92-115 | The measurement comes back unchanged if and only if it does not end in an underscore. |

## Left out

Environment and I/O:

- HTTP, authentication, sessions, connection pools, URLs, the SDKs, kubectl, helm and docker: remote answers are oracles or arbitrary choices.
- Floating-point arithmetic: percentile targets use an exact integer ceiling, the clock counts whole microseconds, sleeps last at least as long as asked for.
- A wall clock that goes back.
- Exceptions that are not subclasses of `Exception`, such as an interrupt.
- Loading JSON, YAML and XML, regular expressions (Terraform lines arrive as the event their patterns find), and file I/O other than the text of the CSI log.
- Real concurrency: workers are run one at a time in an arbitrary order of completion, so the attempts of one worker are contiguous in the history and their backoff is counted but not slept there; the node count of a checking turn falls before or after its listing; log lines are appended whole.

Machine scale-out:

- The provisioning details in a failure report: it is the list of names.
- Determining the cluster name before the operation record is opened, which may raise.
- Timestamps, durations, batch timings and the saving of operation records to files; `create_machine_agentpool`.
- MachineScale.FailedRunIsSound: "out of reach" is about later worlds whose Ready nodes beyond those present at the start come from Succeeded machines.
- Retries.BeginWithRetry: a run that polls forever (zero interval, positive timeout, an operation that is never done) is the outcome `NeverReturns` here.

Node pools:

- Node roles, access entries, launch templates, capacity reservations, labels and taints, GPU and driver verification: each is a call that may raise.
- `_create_workloads` and the other commands of the CRUD classes; agent pool modes and instance types.
- Retry of conflicting updates inside the AKS calls is proved on its own, in `Retries`, and not inlined into the life cycle.

Manifests:

- The content of a merge patch: an object is the list of manifests merged into it.
- What controllers do by themselves, such as deleting the objects of a deleted namespace, and asynchronous deletion.
- How the server picks a generated name: any suffix, and a conflict if the name is taken.
- The other operations of the Kubernetes client.

Logs and names:

- `parse_module_path` and the constant fields of Terraform records.
- TerraformLog.TimeToSeconds: digits are the ASCII ones, while Python's `\d` also accepts others.
- CsiMonitor.WaitForCondition: works over the polls made so far, where the code waits without end.
- `process_cl2_reports`, report templates and the override writers.
- KwokAddress.GenerateNodeIp: returns the octets; formatting them is the function `Dotted`. The base address is any tuple of valid octets.
- Node manifests and pods of the simulated cluster other than their addresses.
