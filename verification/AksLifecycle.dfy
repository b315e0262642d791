/** The life of one AKS node pool under `NodePoolCRUD.all`, with a fault possible at every call. */
module AksLifecycle {
  import opened Common
  import opened ScalingPlan
  import opened StageRecord
  import EksLifecycle

  type Calls = seq<Call<int>>

  /** The AKS control plane: the pool's node count, if it exists, and the calls made. A call that is
      reported to fail may or may not have taken effect. */
  class AgentPoolService {
    var count: Option<int>
    ghost var calls: Calls

    constructor ()
      ensures count == None && calls == []
    {
      count, calls := None, [];
    }

    method Get() returns (r: Option<int>)
      modifies this`calls
      ensures calls == old(calls) + [Seen(r)]
      ensures r.Some? ==> r == count
    {
      var reached := *;
      r := if reached then count else None;
      calls := calls + [Seen(r)];
    }

    /** `begin_create_or_update` followed by the waits for ARM and for the nodes; creating a pool
        that exists updates it. */
    method Request(n: int, creating: bool) returns (ok: bool)
      modifies this
      ensures calls == old(calls) + [Sent(n, n, ok)]
      ensures count == old(count) || ((creating || old(count).Some?) && count == Some(n))
      ensures ok ==> count == Some(n)
    {
      var applied := *;
      if applied && (creating || count.Some?) {
        count := Some(n);
      }
      var reported := *;
      ok := reported && count == Some(n);
      calls := calls + [Sent(n, n, ok)];
    }

    method DeletePool() returns (ok: bool)
      modifies this
      ensures calls == old(calls) + [Deleted(ok)]
      ensures count == old(count) || count == None
      ensures ok ==> count == None
    {
      var applied := *;
      if applied {
        count := None;
      }
      var reported := *;
      ok := reported && count == None;
      calls := calls + [Deleted(ok)];
    }

    /** Fetching metadata or verifying drivers, which may raise. */
    method Attend() returns (ok: bool)
      modifies this`calls
      ensures calls == old(calls) + [Waited(ok)]
    {
      ok := *;
      calls := calls + [Waited(ok)];
    }
  }

  /** One request between two fallible calls. */
  method RequestOnce(aks: AgentPoolService, n: int, creating: bool) returns (ok: bool, ghost calls: Calls)
    modifies aks
    ensures aks.calls == old(aks.calls) + calls
    ensures CreateStage(calls, ok, n)
    ensures aks.count == old(aks.count) ||
      ((creating || old(aks.count).Some?) && aks.count == Some(n) && Sizes(calls) == [n])
    ensures ok ==> aks.count == Some(n)
  {
    var attended := aks.Attend();
    var sent := false;
    ok := attended;
    if attended {
      sent := aks.Request(n, creating);
      ok := sent;
    }
    if sent {
      ok := aks.Attend();
    }
    calls := OneRequest(n, n, attended, sent, ok);
    OneRequestIsCreation(n, n, attended, sent, ok);
  }

  /** The path of the counts to request of a pool with `count` nodes; without a pool there is none. */
  function PathFrom(count: Option<int>, nodeCount: int, progressive: bool, step: int): Result<seq<int>, PlanError> {
    if count.None? then Err(NoSteps) else AksPath(count.value, nodeCount, progressive, step)
  }

  /** The pool after some counts were requested of it: unchanged, or at one of them. */
  ghost predicate PoolMoved(count: Option<int>, count': Option<int>, sizes: seq<int>) {
    (count.Some? <==> count'.Some?) && (count.Some? ==> count' == count || count'.value in sizes)
  }

  /** `scale_node_pool`: after a look at the pool, exactly the planned path is requested, up to the
      first call that fails. */
  method ScaleNodePool(aks: AgentPoolService, nodeCount: int, progressive: bool, step: int)
    returns (ok: bool, ghost calls: Calls)
    modifies aks
    ensures aks.calls == old(aks.calls) + calls
    ensures calls != [] && calls[0].Seen? && (calls[0].pool.Some? ==> calls[0].pool == old(aks.count))
    ensures ScaleStage(calls, ok, PathFrom(calls[0].pool, nodeCount, progressive, step))
    ensures calls[0].pool == Some(nodeCount) ==> ok && calls == [Seen(Some(nodeCount))]
    ensures PoolMoved(old(aks.count), aks.count, Sizes(calls))
    ensures ok ==> aks.count == Some(nodeCount)
  {
    var pool := aks.Get();
    ghost var look: Calls := [Seen(pool)];
    RecordOne(look[0]);
    if pool.None? || pool.value == nodeCount {
      return pool.Some?, look;
    }
    ghost var rest;
    if progressive {
      ok, rest := ProgressiveScale(aks, pool.value, nodeCount, step);
    } else {
      ok, rest := RequestOnce(aks, nodeCount, false);
    }
    RecordConcat(look, rest);
    Associate(old(aks.calls), look, rest);
    calls := look + rest;
    assert look + [] == look;
  }

  /** `_progressive_scale`: one step of the plan after the other, up to the first that fails. */
  method ProgressiveScale(aks: AgentPoolService, current: int, target: int, step: int)
    returns (ok: bool, ghost calls: Calls)
    requires aks.count == Some(current) && current != target
    modifies aks
    ensures aks.calls == old(aks.calls) + calls
    ensures StopsAtFailure(calls) && Deletions(calls) == 0
    ensures var plan := AksPlan(current, target, step);
      && (ok <==> Clean(calls) && plan.Ok?)
      && (plan.Err? ==> calls == [])
      && (plan.Ok? ==> Sizes(calls) <= plan.value && (ok ==> Sizes(calls) == plan.value))
    ensures PoolMoved(old(aks.count), aks.count, Sizes(calls))
    ensures ok ==> aks.count == Some(target)
  {
    calls := [];
    var planned := AksSteps(current, target, step);
    if planned.Err? {
      return false, [];
    }
    var steps := planned.value;
    StepsWithin(current, target, step, current, current);
    ghost var h := aks.calls;
    for i := 0 to |steps|
      invariant aks.calls == h + calls
      invariant Clean(calls) && Deletions(calls) == 0 && Sizes(calls) == steps[..i]
      invariant PoolMoved(Some(current), aks.count, Sizes(calls))
      invariant i > 0 ==> aks.count == Some(steps[i - 1])
    {
      ghost var done, more := calls, [];
      ok, more := RequestOnce(aks, steps[i], false);
      StepRecord(h, done, more, steps, i, ok);
      calls := done + more;
      if !ok {
        return false, calls;
      }
    }
    assert steps[..|steps|] == steps;
    ok := true;
  }

  lemma StepsWithin(current: int, target: int, step: int, lo: int, hi: int)
    requires current != target && AksPlan(current, target, step).Ok?
    ensures var plan := AksPlan(current, target, step).value;
      && plan != [] && plan[|plan| - 1] == target
      && (lo <= current <= hi && lo <= target <= hi ==> Within(plan, lo, hi))
  {
    if step > 0 {
      PlanIsProgressive(current, target, step);
      if lo <= current <= hi && lo <= target <= hi {
        PlanWithin(current, target, step, lo, hi);
      }
    }
  }

  /** `delete_node_pool`. */
  method DeleteNodePool(aks: AgentPoolService) returns (ok: bool, ghost calls: Calls)
    modifies aks
    ensures aks.calls == old(aks.calls) + calls && DeleteStage(calls, ok)
    ensures calls[0].pool.Some? ==> calls[0].pool == old(aks.count)
    ensures aks.count == old(aks.count) || (aks.count == None && Deletions(calls) == 1)
    ensures ok ==> aks.count == None
  {
    var pool := aks.Get();
    var fetched := aks.Attend();
    ok := fetched;
    if fetched {
      ok := aks.DeletePool();
    }
    calls := OneDeletion(pool, fetched, ok, None);
    OneDeletionIsStage(pool, fetched, ok, None);
  }

  /** The sizes of a run in which nothing fails. */
  function LifecycleSizes(nodeCount: int, targetCount: int, progressive: bool, step: int): Option<seq<int>> {
    var up := AksPath(nodeCount, targetCount, progressive, step);
    var down := AksPath(targetCount, nodeCount, progressive, step);
    if up.Ok? && down.Ok? then Some([nodeCount] + up.value + down.value) else None
  }

  /** A look at the pool found it unchanged since `count`, or at one of the counts requested since. */
  ghost predicate SeenAt(c: Call<int>, count: int, requested: seq<int>) {
    c.Seen? && (c.pool.Some? ==> c.pool.value == count || c.pool.value in requested)
  }

  ghost predicate SeenExactlyAt(c: Call<int>, count: int) {
    c.Seen? && (c.pool.Some? ==> c.pool.value == count)
  }

  /** After a creation that succeeded and waits that do not raise, all three later stages are entered,
      whatever becomes of the ones before; otherwise none is. Each stage works from the count it finds,
      which is one that was requested before, and the last one if that stage succeeded. */
  ghost predicate StagesEntered(life: Life<int>, results: Results, nodeCount: int, targetCount: int,
                                progressive: bool, step: int, stepWait: int)
  {
    && CreateStage(life.create, results.create, nodeCount)
    && if results.create && stepWait >= 0 then
         && life.up != [] && SeenExactlyAt(life.up[0], nodeCount)
         && ScaleStage(life.up, results.scaleUp, PathFrom(life.up[0].pool, targetCount, progressive, step))
         && life.down != [] && SeenAt(life.down[0], nodeCount, Sizes(life.up))
         && (results.scaleUp ==> SeenExactlyAt(life.down[0], targetCount))
         && ScaleStage(life.down, results.scaleDown, PathFrom(life.down[0].pool, nodeCount, progressive, step))
         && DeleteStage(life.delete, results.delete)
         && SeenAt(life.delete[0], nodeCount, Sizes(life.up) + Sizes(life.down))
         && (results.scaleDown ==> SeenExactlyAt(life.delete[0], nodeCount))
       else
         && life.up == life.down == life.delete == []
         && !results.scaleUp && !results.scaleDown && !results.delete
  }

  lemma ScaleWithin(calls: Calls, ok: bool, from: Option<int>, to: int, progressive: bool, step: int, lo: int, hi: int)
    requires ScaleStage(calls, ok, PathFrom(from, to, progressive, step))
    requires (from.Some? ==> lo <= from.value <= hi) && lo <= to <= hi
    ensures Within(Sizes(calls), lo, hi)
  {
    var path := PathFrom(from, to, progressive, step);
    if path.Err? {
      assert calls == [calls[0]];
      RecordOne(calls[0]);
    } else {
      if from.value != to && progressive {
        StepsWithin(from.value, to, step, lo, hi);
      }
      PrefixWithin(Sizes(calls), path.value, lo, hi);
    }
  }

  lemma LifeFacts(life: Life<int>, results: Results, nodeCount: int, targetCount: int,
                  progressive: bool, step: int, stepWait: int)
    requires StagesEntered(life, results, nodeCount, targetCount, progressive, step, stepWait)
    ensures var calls := AllCalls(life);
      && Within(Sizes(calls), Min(nodeCount, targetCount), Max(nodeCount, targetCount))
      && (results.create && stepWait < 0 ==> Deletions(calls) == 0)
      && (Complete(results) ==> Deletions(calls) == 1)
      && (Complete(results) ==> LifecycleSizes(nodeCount, targetCount, progressive, step) == Some(Sizes(calls)))
  {
    var lo, hi := Min(nodeCount, targetCount), Max(nodeCount, targetCount);
    SizesOfLife(life);
    assert Within(Sizes(life.create), lo, hi);
    if results.create && stepWait >= 0 {
      ScaleWithin(life.up, results.scaleUp, life.up[0].pool, targetCount, progressive, step, lo, hi);
      ScaleWithin(life.down, results.scaleDown, life.down[0].pool, nodeCount, progressive, step, lo, hi);
    }
    if Complete(results) {
      CleanHolds(life.delete[1..], 0);
      var sizes := [nodeCount] + Sizes(life.up) + Sizes(life.down);
      assert sizes + [] == sizes;
    }
  }

  /** The stages after a creation that succeeded; each is entered whatever became of the ones before. */
  method ScaleAndDelete(aks: AgentPoolService, nodeCount: int, targetCount: int, progressive: bool, step: int,
                        ghost create: Calls)
    returns (up: bool, down: bool, deleted: bool, ghost life: Life<int>)
    requires CreateStage(create, true, nodeCount)
    requires aks.count == Some(nodeCount)
    modifies aks
    ensures life.create == [] && aks.calls == old(aks.calls) + AllCalls(life)
    ensures StagesEntered(life.(create := create), Results(true, up, down, deleted),
                          nodeCount, targetCount, progressive, step, 0)
    ensures deleted ==> aks.count == None
  {
    ghost var h, ups, downs, deletes := aks.calls, [], [], [];
    up, ups := ScaleNodePool(aks, targetCount, progressive, step);
    ghost var middle := aks.count;
    down, downs := ScaleNodePool(aks, nodeCount, progressive, step);
    ghost var last := aks.count;
    deleted, deletes := DeleteNodePool(aks);
    life := Life([], ups, downs, deletes);
    LooksFollow(nodeCount, middle, last, Sizes(ups), Sizes(downs));
    assert [] + ups == ups;
    Associate(h, ups, downs);
    Associate(h, ups + downs, deletes);
  }

  lemma LooksFollow(nodeCount: int, middle: Option<int>, last: Option<int>, ups: seq<int>, downs: seq<int>)
    requires PoolMoved(Some(nodeCount), middle, ups) && PoolMoved(middle, last, downs)
    ensures middle.Some? && (middle.value == nodeCount || middle.value in ups)
    ensures last.Some? && (last.value == nodeCount || last.value in ups + downs)
  {
  }

  /** `NodePoolCRUD.all` on Azure. A negative wait makes `time.sleep` raise after the creation. */
  method All(aks: AgentPoolService, nodeCount: int, targetCount: int, progressive: bool, step: int, stepWait: int)
    returns (r: bool, results: Results, ghost life: Life<int>)
    modifies aks
    ensures aks.calls == old(aks.calls) + AllCalls(life)
    ensures StagesEntered(life, results, nodeCount, targetCount, progressive, step, stepWait)
    ensures r <==> results.create && results.scaleUp && results.scaleDown && results.delete
    ensures stepWait >= 0 && (progressive ==> step >= 1) && Clean(AllCalls(life)) ==> r
    ensures Within(Sizes(AllCalls(life)), Min(nodeCount, targetCount), Max(nodeCount, targetCount))
    ensures results.create && stepWait < 0 ==> aks.count == Some(nodeCount) && Deletions(AllCalls(life)) == 0
    ensures r ==> aks.count == None && Deletions(AllCalls(life)) == 1
    ensures r ==> LifecycleSizes(nodeCount, targetCount, progressive, step) == Some(Sizes(AllCalls(life)))
  {
    ghost var h := aks.calls;
    var created;
    ghost var create;
    created, create := RequestOnce(aks, nodeCount, true);
    var up, down, deleted := false, false, false;
    ghost var later: Life<int> := Life([], [], [], []);
    if created && stepWait >= 0 {
      up, down, deleted, later := ScaleAndDelete(aks, nodeCount, targetCount, progressive, step, create);
    }
    results := Results(created, up, down, deleted);
    r := created && up && down && deleted;
    CallsAfter(later, create);
    Associate(h, create, AllCalls(later));
    life := Life(create, later.up, later.down, later.delete);
    LifeFacts(life, results, nodeCount, targetCount, progressive, step, stepWait);
    if stepWait >= 0 && (progressive ==> step >= 1) && Clean(AllCalls(life)) {
      CleanRunSucceeds(life, results, nodeCount, targetCount, progressive, step, stepWait);
    }
  }

  /** A run in which no call fails succeeds, unless its wait or its step makes it raise. */
  lemma CleanRunSucceeds(life: Life<int>, results: Results, nodeCount: int, targetCount: int,
                         progressive: bool, step: int, stepWait: int)
    requires StagesEntered(life, results, nodeCount, targetCount, progressive, step, stepWait)
    requires stepWait >= 0 && (progressive ==> step >= 1) && Clean(AllCalls(life))
    ensures results.create && results.scaleUp && results.scaleDown && results.delete
  {
    CleanLife(life);
    CleanStageSucceeds(life.up, results.scaleUp, targetCount, progressive, step);
    CleanStageSucceeds(life.down, results.scaleDown, nodeCount, progressive, step);
    RecordConcat(life.delete[..1], life.delete[1..]);
    assert life.delete == life.delete[..1] + life.delete[1..];
  }

  lemma CleanStageSucceeds(calls: Calls, ok: bool, nodeCount: int, progressive: bool, step: int)
    requires calls != [] && calls[0].Seen?
    requires ScaleStage(calls, ok, PathFrom(calls[0].pool, nodeCount, progressive, step))
    requires Clean(calls) && (progressive ==> step >= 1)
    ensures ok
  {
    CleanHolds(calls, 0);
    AksPathMeans(calls[0].pool.value, nodeCount, progressive, step);
  }

  /** Runs without faults request the same sizes on both clouds exactly when the two counts differ
      and the step is one that both clients accept. */
  lemma LifecyclesAgree(nodeCount: int, targetCount: int, progressive: bool, step: int)
    ensures (LifecycleSizes(nodeCount, targetCount, progressive, step).Some?
        && LifecycleSizes(nodeCount, targetCount, progressive, step)
           == EksLifecycle.LifecycleSizes(nodeCount, targetCount, progressive, step))
      <==> nodeCount != targetCount && (progressive ==> step >= 1)
  {
    CloudsPlanAlike(nodeCount, targetCount, progressive, step);
    CloudsPlanAlike(targetCount, nodeCount, progressive, step);
    if nodeCount == targetCount {
      assert AksPath(nodeCount, nodeCount, progressive, step) == Ok([]);
      var eks := EksLifecycle.LifecycleSizes(nodeCount, nodeCount, progressive, step);
      assert eks.Some? ==> |eks.value| > 1;
    }
  }
}
