/** The life of one EKS node group under `NodePoolCRUD.all`, with a fault possible at every call. */
module EksLifecycle {
  import opened Common
  import opened ScalingPlan
  import opened StageRecord

  datatype ScalingConfig = ScalingConfig(minSize: int, maxSize: int, desiredSize: int)

  type Calls = seq<Call<ScalingConfig>>

  predicate Consistent(c: ScalingConfig) {
    c.minSize <= c.desiredSize <= c.maxSize
  }

  /** Every configuration that was sent keeps the minimum `least` and has room for what it asks. */
  ghost predicate Roomy(calls: Calls, least: int) {
    calls != [] ==>
      var last := calls[|calls| - 1];
      && Roomy(calls[..|calls| - 1], least)
      && (last.Sent? ==> last.config.minSize == least && last.size == last.config.desiredSize <= last.config.maxSize)
  }

  lemma {:induction false} RoomyConcat(a: Calls, b: Calls, least: int)
    ensures Roomy(a + b, least) <==> Roomy(a, least) && Roomy(b, least)
  {
    if b == [] {
      assert a + b == a;
    } else {
      assert (a + b)[..|a + b| - 1] == a + b[..|b| - 1];
      RoomyConcat(a, b[..|b| - 1], least);
    }
  }

  lemma RoomyOne(c: Call<ScalingConfig>, least: int)
    requires c.Sent? ==> c.config.minSize == least && c.size == c.config.desiredSize <= c.config.maxSize
    ensures Roomy([c], least)
  {
    assert [c][..0] == [];
  }

  /** The EKS control plane: the node group's configuration, if it exists, and the calls made. A
      call that is reported to fail may or may not have taken effect. */
  class NodeGroupService {
    var group: Option<ScalingConfig>
    ghost var calls: Calls

    constructor ()
      ensures group == None && calls == []
    {
      group, calls := None, [];
    }

    method Describe() returns (r: Option<ScalingConfig>)
      modifies this`calls
      ensures calls == old(calls) + [Seen(r)]
      ensures r.Some? ==> r == group
    {
      var reached := *;
      r := if reached then group else None;
      calls := calls + [Seen(r)];
    }

    /** Send a configuration to create the group with, if there is none, or to update it to. */
    method Send(c: ScalingConfig, creating: bool) returns (ok: bool)
      modifies this
      ensures calls == old(calls) + [Sent(c.desiredSize, c, ok)]
      ensures group == old(group) || ((creating <==> old(group).None?) && group == Some(c))
      ensures ok ==> group == Some(c) && (creating <==> old(group).None?)
    {
      var possible, applied := creating == group.None?, *;
      if applied && possible {
        group := Some(c);
      }
      var reported := *;
      ok := reported && possible && group == Some(c);
      calls := calls + [Sent(c.desiredSize, c, ok)];
    }

    method DeleteGroup() returns (ok: bool)
      modifies this
      ensures calls == old(calls) + [Deleted(ok)]
      ensures group == old(group) || group == None
      ensures ok ==> group == None
    {
      var applied := *;
      if applied {
        group := None;
      }
      var reported := *;
      ok := reported && group == None;
      calls := calls + [Deleted(ok)];
    }

    /** Waiting for the group and its nodes, verifying drivers or fetching metadata, which may raise. */
    method Await() returns (ok: bool)
      modifies this`calls
      ensures calls == old(calls) + [Waited(ok)]
    {
      ok := *;
      calls := calls + [Waited(ok)];
    }
  }

  /** The scaling part of `create_node_group`: some preparation, the request, and the waits after it. */
  method CreateNodeGroup(eks: NodeGroupService, nodeCount: int, maxNodeCount: int)
    returns (ok: bool, ghost calls: Calls)
    modifies eks
    ensures eks.calls == old(eks.calls) + calls && CreateStage(calls, ok, nodeCount)
    ensures var c := ScalingConfig(nodeCount, Max(maxNodeCount, 1), nodeCount);
      && (forall call :: call in calls && call.Sent? ==> call.config == c && call.size == nodeCount)
      && (eks.group == old(eks.group) || (old(eks.group).None? && eks.group == Some(c)))
      && (ok ==> old(eks.group).None? && eks.group == Some(c))
  {
    var c := ScalingConfig(nodeCount, Max(maxNodeCount, 1), nodeCount);
    var prepared := eks.Await();
    var sent := false;
    ok := prepared;
    if prepared {
      sent := eks.Send(c, true);
      ok := sent;
    }
    if sent {
      ok := eks.Await();
    }
    calls := OneRequest(nodeCount, c, prepared, sent, ok);
    OneRequestIsCreation(nodeCount, c, prepared, sent, ok);
  }

  /** `scale_node_group` for a single size, after the group was described. */
  method ScaleDirect(eks: NodeGroupService, current: ScalingConfig, nodeCount: int)
    returns (ok: bool, ghost calls: Calls)
    requires eks.group == Some(current)
    modifies eks
    ensures eks.calls == old(eks.calls) + calls
    ensures StopsAtFailure(calls) && (ok <==> Clean(calls))
    ensures Sizes(calls) == [nodeCount] && Deletions(calls) == 0 && Roomy(calls, current.minSize)
    ensures var c := ScalingConfig(current.minSize, Max(current.maxSize, nodeCount), nodeCount);
      && calls != [] && calls[0].Sent? && calls[0].config == c
      && (eks.group == old(eks.group) || eks.group == Some(c))
      && (ok ==> eks.group == Some(c))
  {
    var config := current.(desiredSize := nodeCount);
    if config.maxSize < nodeCount {
      config := config.(maxSize := nodeCount);
    }
    var sent := eks.Send(config, false);
    calls := [Sent(nodeCount, config, sent)];
    RecordOne(calls[0]);
    RoomyOne(calls[0], current.minSize);
    if !sent {
      return false, calls;
    }
    ok := eks.Await();
    ghost var waited: Calls := [Waited(ok)];
    RecordOne(waited[0]);
    RoomyOne(waited[0], current.minSize);
    RecordConcat(calls, waited);
    RoomyConcat(calls, waited, current.minSize);
    calls := calls + waited;
  }

  /** The path of the sizes to request of a group `g`; without a group there is none. */
  function PathFrom(g: Option<ScalingConfig>, nodeCount: int, progressive: bool, step: int)
    : Result<seq<int>, PlanError>
  {
    if g.None? then Err(NoSteps) else EksPath(g.value.desiredSize, nodeCount, progressive, step)
  }

  /** The group after some sizes were requested of `g`: unchanged, or at one of them. */
  ghost predicate GroupMoved(g: Option<ScalingConfig>, g': Option<ScalingConfig>, sizes: seq<int>) {
    && (g.Some? <==> g'.Some?)
    && (g.Some? ==> g'.value.minSize == g.value.minSize && (g' == g || g'.value.desiredSize in sizes))
  }

  /** `scale_node_group`: after a look at the group, exactly the planned path is requested, up to the
      first call that fails. */
  method ScaleNodeGroup(eks: NodeGroupService, nodeCount: int, progressive: bool, step: int)
    returns (ok: bool, ghost calls: Calls)
    modifies eks
    ensures eks.calls == old(eks.calls) + calls
    ensures calls != [] && calls[0].Seen? && (calls[0].pool.Some? ==> calls[0].pool == old(eks.group))
    ensures ScaleStage(calls, ok, PathFrom(calls[0].pool, nodeCount, progressive, step))
    ensures !progressive && calls[0].pool.Some? ==> (ok <==> Clean(calls)) && Sizes(calls) == [nodeCount]
    ensures if old(eks.group).Some? then Roomy(calls, old(eks.group).value.minSize) else |calls| == 1
    ensures GroupMoved(old(eks.group), eks.group, Sizes(calls))
    ensures ok ==> eks.group.Some? && eks.group.value.desiredSize == nodeCount
    decreases if progressive then 2 else 0
  {
    var described := eks.Describe();
    ghost var look: Calls := [Seen(described)];
    RecordOne(look[0]);
    if described.None? {
      return false, look;
    }
    var current := described.value;
    RoomyOne(look[0], current.minSize);
    ghost var rest;
    if progressive && Distance(current.desiredSize, nodeCount) > step {
      ok, rest := ProgressiveScale(eks, current.desiredSize, nodeCount, step);
    } else {
      ok, rest := ScaleDirect(eks, current, nodeCount);
    }
    RecordConcat(look, rest);
    RoomyConcat(look, rest, current.minSize);
    Associate(old(eks.calls), look, rest);
    calls := look + rest;
    assert look + [] == look;
  }

  /** `_progressive_scale`: one step of the plan after the other, up to the first that fails. */
  method ProgressiveScale(eks: NodeGroupService, current: int, target: int, step: int)
    returns (ok: bool, ghost calls: Calls)
    requires eks.group.Some? && eks.group.value.desiredSize == current && Distance(current, target) > step
    modifies eks
    ensures eks.calls == old(eks.calls) + calls
    ensures StopsAtFailure(calls) && Deletions(calls) == 0
    ensures var plan := EksPlan(current, target, step);
      && (ok <==> Clean(calls) && plan.Ok?)
      && (plan.Err? ==> calls == [])
      && (plan.Ok? ==> Sizes(calls) <= plan.value && (ok ==> Sizes(calls) == plan.value))
    ensures Roomy(calls, old(eks.group).value.minSize)
    ensures GroupMoved(old(eks.group), eks.group, Sizes(calls))
    ensures ok ==> eks.group.value.desiredSize == target
    decreases 1
  {
    calls := [];
    var planned := EksSteps(current, target, step);
    if planned.Err? {
      return false, [];
    }
    var steps := planned.value;
    EksLoopReachesTarget(current, target, step);
    ghost var least, h := eks.group.value.minSize, eks.calls;
    for i := 0 to |steps|
      invariant eks.calls == h + calls
      invariant Clean(calls) && Deletions(calls) == 0 && Sizes(calls) == steps[..i] && Roomy(calls, least)
      invariant GroupMoved(old(eks.group), eks.group, Sizes(calls))
      invariant i > 0 ==> eks.group.value.desiredSize == steps[i - 1]
    {
      ghost var done, more := calls, [];
      ok, more := ScaleNodeGroup(eks, steps[i], false, 1);
      DirectStage(more, ok, steps[i]);
      StepRecord(h, done, more, steps, i, ok);
      RoomyConcat(done, more, least);
      calls := done + more;
      if !ok {
        return false, calls;
      }
    }
    assert steps[..|steps|] == steps;
    ok := true;
  }

  /** Scaling to a single size, as the step loop does, asks for that size at most once. */
  lemma DirectStage(calls: Calls, ok: bool, size: int)
    requires calls != [] && calls[0].Seen? && ScaleStage(calls, ok, PathFrom(calls[0].pool, size, false, 1))
    ensures StopsAtFailure(calls) && (ok <==> Clean(calls)) && Deletions(calls) == 0
    ensures Sizes(calls) <= [size] && (ok ==> Sizes(calls) == [size])
  {
    if calls[0].pool.None? {
      assert calls == [calls[0]];
      RecordOne(calls[0]);
    }
  }

  /** `delete_node_group`. */
  method DeleteNodeGroup(eks: NodeGroupService) returns (ok: bool, ghost calls: Calls)
    modifies eks
    ensures eks.calls == old(eks.calls) + calls && DeleteStage(calls, ok)
    ensures calls[0].pool.Some? ==> calls[0].pool == old(eks.group)
    ensures eks.group == old(eks.group) || (eks.group == None && Deletions(calls) == 1)
    ensures ok ==> eks.group == None
  {
    var described := eks.Describe();
    var fetched := eks.Await();
    var deleted := false;
    ok := fetched;
    if fetched {
      deleted := eks.DeleteGroup();
      ok := deleted;
    }
    if deleted {
      ok := eks.Await();
    }
    calls := OneDeletion(described, fetched, deleted, Some(ok));
    OneDeletionIsStage(described, fetched, deleted, Some(ok));
  }

  /** The sizes of a run in which nothing fails. */
  function LifecycleSizes(nodeCount: int, targetCount: int, progressive: bool, step: int): Option<seq<int>> {
    var up := EksPath(nodeCount, targetCount, progressive, step);
    var down := EksPath(targetCount, nodeCount, progressive, step);
    if up.Ok? && down.Ok? then Some([nodeCount] + up.value + down.value) else None
  }

  lemma PathWithin(from: int, to: int, progressive: bool, step: int, lo: int, hi: int)
    requires lo <= from <= hi && lo <= to <= hi && EksPath(from, to, progressive, step).Ok?
    ensures Within(EksPath(from, to, progressive, step).value, lo, hi)
  {
    if progressive && Distance(from, to) > step {
      PlanWithin(from, to, step, lo, hi);
    }
  }

  /** A look at the group found it unchanged since `size`, or at one of the sizes requested since. */
  ghost predicate SeenAt(c: Call<ScalingConfig>, size: int, requested: seq<int>) {
    c.Seen? && (c.pool.Some? ==> c.pool.value.desiredSize == size || c.pool.value.desiredSize in requested)
  }

  ghost predicate SeenExactlyAt(c: Call<ScalingConfig>, size: int) {
    c.Seen? && (c.pool.Some? ==> c.pool.value.desiredSize == size)
  }

  /** After a creation that succeeded and waits that do not raise, all three later stages are entered,
      whatever becomes of the ones before; otherwise none is. Each stage works from the size it finds,
      which is one that was requested before, and the last one if that stage succeeded. */
  ghost predicate StagesEntered(life: Life<ScalingConfig>, results: Results, nodeCount: int, targetCount: int,
                                progressive: bool, step: int, stepWait: int)
  {
    && CreateStage(life.create, results.create, nodeCount)
    && if results.create && stepWait >= 0 then
         && life.up != [] && SeenExactlyAt(life.up[0], nodeCount)
         && ScaleStage(life.up, results.scaleUp, PathFrom(life.up[0].pool, targetCount, progressive, step))
         && life.down != [] && SeenAt(life.down[0], nodeCount, Sizes(life.up))
         && (results.scaleUp ==> SeenExactlyAt(life.down[0], targetCount))
         && ScaleStage(life.down, results.scaleDown, PathFrom(life.down[0].pool, nodeCount, progressive, step))
         && DeleteStage(life.delete, results.delete)
         && SeenAt(life.delete[0], nodeCount, Sizes(life.up) + Sizes(life.down))
         && (results.scaleDown ==> SeenExactlyAt(life.delete[0], nodeCount))
       else
         && life.up == life.down == life.delete == []
         && !results.scaleUp && !results.scaleDown && !results.delete
  }

  lemma ScaleWithin(calls: Calls, ok: bool, from: Option<ScalingConfig>, to: int, progressive: bool, step: int,
                    lo: int, hi: int)
    requires ScaleStage(calls, ok, PathFrom(from, to, progressive, step))
    requires (from.Some? ==> lo <= from.value.desiredSize <= hi) && lo <= to <= hi
    ensures Within(Sizes(calls), lo, hi)
  {
    var path := PathFrom(from, to, progressive, step);
    if path.Ok? {
      PathWithin(from.value.desiredSize, to, progressive, step, lo, hi);
      PrefixWithin(Sizes(calls), path.value, lo, hi);
    } else {
      assert calls == [calls[0]];
      RecordOne(calls[0]);
    }
  }

  /** Whatever fails, every size requested lies between the two counts. */
  lemma LifeIsBounded(life: Life<ScalingConfig>, results: Results, nodeCount: int, targetCount: int,
                      progressive: bool, step: int, stepWait: int)
    requires StagesEntered(life, results, nodeCount, targetCount, progressive, step, stepWait)
    ensures Within(Sizes(AllCalls(life)), Min(nodeCount, targetCount), Max(nodeCount, targetCount))
  {
    var lo, hi := Min(nodeCount, targetCount), Max(nodeCount, targetCount);
    SizesOfLife(life);
    assert Within(Sizes(life.create), lo, hi);
    if results.create && stepWait >= 0 {
      ScaleWithin(life.up, results.scaleUp, life.up[0].pool, targetCount, progressive, step, lo, hi);
      ScaleWithin(life.down, results.scaleDown, life.down[0].pool, nodeCount, progressive, step, lo, hi);
    }
  }

  /** A run that creates and scales without failures requests exactly the sizes planned. */
  lemma LifeIsPlanned(life: Life<ScalingConfig>, results: Results, nodeCount: int, targetCount: int,
                      progressive: bool, step: int, stepWait: int)
    requires StagesEntered(life, results, nodeCount, targetCount, progressive, step, stepWait)
    requires results.scaleUp && results.scaleDown
    ensures LifecycleSizes(nodeCount, targetCount, progressive, step) == Some(Sizes(AllCalls(life)))
    ensures Deletions(AllCalls(life)) == if life.delete[1].ok then 1 else 0
  {
    SizesOfLife(life);
    var sizes := [nodeCount] + Sizes(life.up) + Sizes(life.down);
    assert sizes + [] == sizes;
  }

  /** The group is created with the target count as its maximum, and every update keeps its minimum and
      makes room for what it asks. */
  ghost predicate ConfigsFit(life: Life<ScalingConfig>, nodeCount: int, targetCount: int) {
    && (forall c :: c in life.create && c.Sent? ==>
      c.config == ScalingConfig(nodeCount, Max(targetCount, 1), nodeCount) && c.size == nodeCount)
    && Roomy(life.up, nodeCount) && Roomy(life.down, nodeCount) && Roomy(life.delete, nodeCount)
  }

  /** The configurations of a run: they keep the minimum of the creation, and have room for what they
      ask, except that the creation has only if it is asked to grow. */
  lemma LifeIsRoomy(life: Life<ScalingConfig>, nodeCount: int, targetCount: int)
    requires ConfigsFit(life, nodeCount, targetCount)
    requires nodeCount <= targetCount
    ensures Roomy(AllCalls(life), nodeCount)
  {
    RoomyEverywhere(life.create, nodeCount);
    RoomyConcat(life.create, life.up, nodeCount);
    RoomyConcat(life.create + life.up, life.down, nodeCount);
    RoomyConcat(life.create + life.up + life.down, life.delete, nodeCount);
  }

  lemma {:induction false} RoomyEverywhere(calls: Calls, least: int)
    requires forall c :: c in calls && c.Sent? ==>
      c.config.minSize == least && c.size == c.config.desiredSize <= c.config.maxSize
    ensures Roomy(calls, least)
  {
    if calls != [] {
      RoomyEverywhere(calls[..|calls| - 1], least);
    }
  }

  lemma {:induction false} NoConfigs(calls: Calls, least: int)
    requires Sizes(calls) == []
    ensures Roomy(calls, least)
  {
    if calls != [] {
      NoConfigs(calls[..|calls| - 1], least);
    }
  }

  ghost predicate AllConsistent(calls: Calls) {
    forall c :: c in calls && c.Sent? ==> Consistent(c.config)
  }

  lemma {:induction false} RoomyHolds(calls: Calls, least: int, c: Call<ScalingConfig>)
    requires Roomy(calls, least) && c in calls && c.Sent?
    ensures c.config.minSize == least && c.size == c.config.desiredSize <= c.config.maxSize && c.size in Sizes(calls)
  {
    if c in calls[..|calls| - 1] {
      RoomyHolds(calls[..|calls| - 1], least, c);
    }
  }

  lemma GrowingIsConsistent(calls: Calls, nodeCount: int, targetCount: int)
    requires nodeCount <= targetCount && Roomy(calls, nodeCount) && Within(Sizes(calls), nodeCount, targetCount)
    ensures AllConsistent(calls)
  {
    forall c | c in calls && c.Sent?
      ensures Consistent(c.config)
    {
      RoomyHolds(calls, nodeCount, c);
    }
  }

  /** A run that shrinks the group and scales it down to `targetCount` sends a configuration whose
      minimum is above what it asks for. */
  lemma ShrinkingIsInconsistent(up: Calls, nodeCount: int, targetCount: int, progressive: bool, step: int)
    requires targetCount < nodeCount && Roomy(up, nodeCount)
    requires up != [] && SeenExactlyAt(up[0], nodeCount)
    requires ScaleStage(up, true, PathFrom(up[0].pool, targetCount, progressive, step))
    ensures !AllConsistent(up)
  {
    var path := EksPath(nodeCount, targetCount, progressive, step).value;
    if progressive && Distance(nodeCount, targetCount) > step {
      EksLoopReachesTarget(nodeCount, targetCount, step);
    }
    assert path[|path| - 1] == targetCount;
    var c := SizeIsSent(up, |path| - 1);
    RoomyHolds(up, nodeCount, c);
  }

  lemma {:induction false} SizeIsSent(calls: Calls, i: nat) returns (c: Call<ScalingConfig>)
    requires i < |Sizes(calls)|
    ensures c in calls && c.Sent? && c.size == Sizes(calls)[i]
  {
    var n := |calls| - 1;
    if i < |Sizes(calls[..n])| {
      c := SizeIsSent(calls[..n], i);
    } else {
      c := calls[n];
    }
  }

  /** A complete run sends only consistent configurations exactly when it is asked to grow. */
  lemma ConsistentIffGrowing(life: Life<ScalingConfig>, results: Results, nodeCount: int, targetCount: int,
                             progressive: bool, step: int, stepWait: int)
    requires StagesEntered(life, results, nodeCount, targetCount, progressive, step, stepWait) && results.scaleUp
    requires Roomy(life.up, nodeCount)
    requires nodeCount <= targetCount ==> Roomy(AllCalls(life), nodeCount)
    ensures AllConsistent(AllCalls(life)) <==> nodeCount <= targetCount
  {
    if nodeCount <= targetCount {
      LifeIsBounded(life, results, nodeCount, targetCount, progressive, step, stepWait);
      GrowingIsConsistent(AllCalls(life), nodeCount, targetCount);
    } else {
      ShrinkingIsInconsistent(life.up, nodeCount, targetCount, progressive, step);
      assert forall c :: c in life.up ==> c in AllCalls(life);
    }
  }

  /** The stages after a creation that succeeded; each is entered whatever became of the ones before. */
  method ScaleAndDelete(eks: NodeGroupService, nodeCount: int, targetCount: int, progressive: bool, step: int,
                        ghost create: Calls)
    returns (up: bool, down: bool, deleted: bool, ghost life: Life<ScalingConfig>)
    requires CreateStage(create, true, nodeCount)
    requires eks.group.Some? && eks.group.value.desiredSize == nodeCount
    modifies eks
    ensures life.create == [] && eks.calls == old(eks.calls) + AllCalls(life)
    ensures StagesEntered(life.(create := create), Results(true, up, down, deleted),
                          nodeCount, targetCount, progressive, step, 0)
    ensures var least := old(eks.group).value.minSize;
      Roomy(life.up, least) && Roomy(life.down, least) && Roomy(life.delete, least)
    ensures deleted ==> eks.group == None
  {
    ghost var h, least, ups, downs, deletes := eks.calls, eks.group.value.minSize, [], [], [];
    up, ups := ScaleNodeGroup(eks, targetCount, progressive, step);
    down, downs := ScaleNodeGroup(eks, nodeCount, progressive, step);
    deleted, deletes := DeleteNodeGroup(eks);
    NoConfigs(deletes, least);
    life := Life([], ups, downs, deletes);
    assert [] + ups == ups;
    Associate(h, ups, downs);
    Associate(h, ups + downs, deletes);
  }

  /** `NodePoolCRUD.all` on AWS. A negative wait makes `time.sleep` raise after the creation. */
  method All(eks: NodeGroupService, nodeCount: int, targetCount: int, progressive: bool, step: int, stepWait: int)
    returns (r: bool, results: Results, ghost life: Life<ScalingConfig>)
    modifies eks
    ensures eks.calls == old(eks.calls) + AllCalls(life)
    ensures StagesEntered(life, results, nodeCount, targetCount, progressive, step, stepWait)
    ensures r <==> results.create && results.scaleUp && results.scaleDown && results.delete
    ensures stepWait >= 0 && (progressive ==> step >= 1) && Clean(AllCalls(life)) ==> r
    ensures ConfigsFit(life, nodeCount, targetCount)
    ensures Within(Sizes(AllCalls(life)), Min(nodeCount, targetCount), Max(nodeCount, targetCount))
    ensures nodeCount <= targetCount ==> AllConsistent(AllCalls(life))
    ensures old(eks.group).Some? ==> !results.create
    ensures results.create && stepWait < 0 ==>
      eks.group == Some(ScalingConfig(nodeCount, Max(targetCount, 1), nodeCount)) && Deletions(AllCalls(life)) == 0
    ensures r ==> eks.group == None && Deletions(AllCalls(life)) == 1
    ensures r ==> LifecycleSizes(nodeCount, targetCount, progressive, step) == Some(Sizes(AllCalls(life)))
    ensures r ==> (AllConsistent(AllCalls(life)) <==> nodeCount <= targetCount)
  {
    ghost var h := eks.calls;
    var created;
    ghost var create;
    created, create := CreateNodeGroup(eks, nodeCount, targetCount);
    var up, down, deleted := false, false, false;
    ghost var later: Life<ScalingConfig> := Life([], [], [], []);
    if created && stepWait >= 0 {
      up, down, deleted, later := ScaleAndDelete(eks, nodeCount, targetCount, progressive, step, create);
    }
    results := Results(created, up, down, deleted);
    r := created && up && down && deleted;
    CallsAfter(later, create);
    Associate(h, create, AllCalls(later));
    life := Life(create, later.up, later.down, later.delete);
    LifeFacts(life, results, nodeCount, targetCount, progressive, step, stepWait);
    if stepWait >= 0 && (progressive ==> step >= 1) && Clean(AllCalls(life)) {
      CleanRunSucceeds(life, results, nodeCount, targetCount, progressive, step, stepWait);
    }
  }

  /** A run in which no call fails succeeds, unless its wait or its step makes it raise. */
  lemma CleanRunSucceeds(life: Life<ScalingConfig>, results: Results, nodeCount: int, targetCount: int,
                         progressive: bool, step: int, stepWait: int)
    requires StagesEntered(life, results, nodeCount, targetCount, progressive, step, stepWait)
    requires stepWait >= 0 && (progressive ==> step >= 1) && Clean(AllCalls(life))
    ensures results.create && results.scaleUp && results.scaleDown && results.delete
  {
    CleanLife(life);
    CleanStageSucceeds(life.up, results.scaleUp, targetCount, progressive, step);
    CleanStageSucceeds(life.down, results.scaleDown, nodeCount, progressive, step);
    RecordConcat(life.delete[..1], life.delete[1..]);
    assert life.delete == life.delete[..1] + life.delete[1..];
  }

  lemma CleanStageSucceeds(calls: Calls, ok: bool, nodeCount: int, progressive: bool, step: int)
    requires calls != [] && calls[0].Seen?
    requires ScaleStage(calls, ok, PathFrom(calls[0].pool, nodeCount, progressive, step))
    requires Clean(calls) && (progressive ==> step >= 1)
    ensures ok
  {
    CleanHolds(calls, 0);
    EksPathMeans(calls[0].pool.value.desiredSize, nodeCount, progressive, step);
  }

  lemma LifeFacts(life: Life<ScalingConfig>, results: Results, nodeCount: int, targetCount: int,
                  progressive: bool, step: int, stepWait: int)
    requires StagesEntered(life, results, nodeCount, targetCount, progressive, step, stepWait)
    requires ConfigsFit(life, nodeCount, targetCount)
    ensures var calls, complete := AllCalls(life), Complete(results);
      && Within(Sizes(calls), Min(nodeCount, targetCount), Max(nodeCount, targetCount))
      && (nodeCount <= targetCount ==> AllConsistent(calls))
      && (results.create && stepWait < 0 ==> Deletions(calls) == 0)
      && (complete ==> Deletions(calls) == 1)
      && (complete ==> LifecycleSizes(nodeCount, targetCount, progressive, step) == Some(Sizes(calls)))
      && (complete ==> (AllConsistent(calls) <==> nodeCount <= targetCount))
  {
    LifeIsBounded(life, results, nodeCount, targetCount, progressive, step, stepWait);
    SizesOfLife(life);
    if nodeCount <= targetCount {
      LifeIsRoomy(life, nodeCount, targetCount);
      GrowingIsConsistent(AllCalls(life), nodeCount, targetCount);
    }
    if Complete(results) {
      LifeIsPlanned(life, results, nodeCount, targetCount, progressive, step, stepWait);
      CleanHolds(life.delete[1..], 0);
      ConsistentIffGrowing(life, results, nodeCount, targetCount, progressive, step, stepWait);
    }
  }
}
