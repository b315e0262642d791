/** Scaling out an agent pool by a number of machines, from the request to the recorded outcome. */
module MachineScale {
  import opened Common
  import opened ArmPool
  import opened Readiness
  import opened MachineNames
  import opened FailureReport
  import opened MachineBatch
  import opened Operations

  /** How the machines are requested, and how ARM answers: `single(name)` for one PUT per machine,
      `batch(w, k)` for attempt `k` of batch worker `w`. */
  datatype Request = Request(useBatch: bool, workers: int, single: MachineName -> int, batch: (nat, nat) -> int)

  datatype ScaleError =
    | Sharding(problem: ShardingError)
    | PartialLanding(landed: nat)
    | AgentPoolUnreachable(cause: AgentPoolError)
    | MachinesFailed(names: seq<MachineName>)
    | ClusterDataUnavailable
    | AgentPoolNotSucceeded
    | ReadinessIncomplete

  datatype MetaKey =
    | SuccessfulMachines
    | PercentileNodeReadinessTimes
    | NodeReadinessTime
    | FailedMachines
    | ClusterInfo

  datatype Meta =
    | Count(n: nat)
    | Percentiles(envelope: Envelope)
    | Time(t: int)
    | Failures(names: seq<MachineName>)
    | Snapshot

  type ScaleOperation = Operation<MetaKey, Meta, ScaleError>

  /** What happened at each stage; a stage that was not entered is `None` and made no requests.
      `before` is the world in which the baseline was counted; `puts`, `gets`, `polls` and `cluster`
      are the requests for machines, those of the two waits and that of the final snapshot; `start` is
      when the second wait began. */
  datatype Run = Run(baseline: nat, before: World, puts: seq<Event>, landed: seq<MachineName>,
                     agentPool: Option<Result<bool, AgentPoolError>>, gets: seq<Event>,
                     readiness: Option<Outcome>, start: int, polls: seq<Poll>, cluster: seq<Event>)

  /** Every request of a run, in order. */
  ghost function Requests(run: Run): seq<Event> {
    [NodesCounted(run.baseline, run.before)] + (run.puts + AfterPuts(run))
  }

  /** The requests that follow those for machines. */
  ghost function AfterPuts(run: Run): seq<Event> {
    run.gets + (Trace(run.polls) + run.cluster)
  }

  /** ARM accepts every request made for `names`, and they are made. */
  ghost predicate AllAccepted(names: seq<MachineName>, request: Request) {
    if request.useBatch then
      ShardingProblem(|names|, request.workers).None? && AllSurvive(|names|, request.workers, request.batch)
    else
      AllIn(names, request.single)
  }

  ghost predicate AllSurvive(n: nat, workers: int, status: (nat, nat) -> int) {
    forall w: nat :: w < workers ==> Survives(n, status, w)
  }

  ghost predicate AllIn(names: seq<MachineName>, status: MachineName -> int) {
    forall x :: x in names ==> Accepts(false, status(x))
  }

  /** Only requested names land, none twice, and all of them exactly when all are accepted. */
  ghost predicate Delivers(names: seq<MachineName>, landed: seq<MachineName>, accepted: bool) {
    && Distinct(landed) && (forall x :: x in landed ==> x in names)
    && (names != [] ==> (|landed| == |names| <==> accepted))
  }

  predicate Refused(n: nat, request: Request) {
    request.useBatch && ShardingProblem(n, request.workers).Some?
  }

  /** What was put: nothing if the sharding is refused; otherwise every name, and those that landed are
      those of the requests that succeeded. */
  ghost predicate PutsFit(puts: seq<Event>, names: seq<MachineName>, landed: seq<MachineName>, request: Request) {
    && OnlyPuts(puts, BATCH_LIMIT) && Landed(puts) == SetOf(landed)
    && if Refused(|names|, request) then puts == [] else Targeted(puts) == SetOf(names)
  }

  /** The two ways to submit the machines keep the same promise. */
  method Submit(pool: Pool, names: seq<MachineName>, request: Request)
    returns (r: Result<seq<MachineName>, ShardingError>, ghost puts: seq<Event>)
    requires Distinct(names)
    modifies pool
    ensures pool.history == old(pool.history) + puts && Chronicle(old(pool.world), puts, pool.world)
    ensures r.Err? <==> Refused(|names|, request)
    ensures r.Err? ==> Some(r.error) == ShardingProblem(|names|, request.workers)
    ensures PutsFit(puts, names, if r.Ok? then r.value else [], request)
    ensures r.Ok? ==> Delivers(names, r.value, AllAccepted(names, request))
    ensures r.Ok? && names == [] ==> AllAccepted(names, request)
  {
    if request.useBatch {
      ghost var perWorker, survivors;
      r, perWorker, survivors, puts := ScaleMachineBatch(pool, names, request.workers, request.batch);
      if r.Ok? {
        BatchDelivers(names, perWorker, request.workers, survivors, request.batch);
      }
    } else {
      var successful;
      successful, puts := ScaleMachineIndividually(pool, names, request.single);
      AtMost(puts, 1, BATCH_LIMIT);
      SinglesDeliver(names, successful, request.single);
      r := Ok(successful);
    }
  }

  lemma SinglesDeliver(names: seq<MachineName>, successful: seq<MachineName>, status: MachineName -> int)
    requires Distinct(names) && Distinct(successful)
    requires SetOf(successful) == set x | x in SetOf(names) && Accepts(false, status(x))
    ensures Delivers(names, successful, AllIn(names, status))
  {
    forall x | x in successful ensures x in names {
      assert x in SetOf(successful);
    }
    FullLandingIsAll(names, successful);
    if |successful| == |names| {
      forall x | x in names ensures Accepts(false, status(x)) {
        assert x in SetOf(names) && x in SetOf(successful);
      }
    } else if AllIn(names, status) {
      assert SetOf(successful) == SetOf(names);
      DistinctSize(names);
      DistinctSize(successful);
    }
  }

  lemma BatchDelivers(names: seq<MachineName>, perWorker: nat, workers: nat, survivors: seq<nat>,
                      status: (nat, nat) -> int)
    requires Distinct(names) && EvenShards(names, perWorker, workers)
    requires CompletionOrder(survivors, Workers(workers), |names|, status)
    ensures Delivers(names, Gather(names, perWorker, survivors), AllSurvive(|names|, workers, status))
  {
    SurvivorsAreKnown(survivors, workers, |names|, status);
    GatherIsDistinct(names, perWorker, survivors);
    GatherWithin(names, perWorker, survivors);
    if names != [] {
      CompleteIffAllSurvive(names, perWorker, workers, survivors, status);
    }
  }

  lemma GatherWithin(names: seq<MachineName>, perWorker: nat, order: seq<nat>)
    ensures forall x :: x in Gather(names, perWorker, order) ==> x in names
  {
    forall x | x in Gather(names, perWorker, order) ensures x in names {
      var i := GatherIsSound(names, perWorker, order, x);
      var k := SlicePosition(names, perWorker, order[i], x);
    }
  }

  // ---- Promises of a run ----

  function NameSet(count: int): set<MachineName> {
    set x | x in Names(count)
  }

  /** The first wait of a run is bounded, and a wait without a verdict takes up its time. */
  ghost predicate WaitFits(run: Run, timeout: int) {
    && |run.gets| <= 2 * Max(0, CeilDiv(timeout, AGENT_POOL_INTERVAL))
    && (run.agentPool.Some? && !Decided(run.gets) ==> run.before.clock + timeout <= run.start)
  }

  /** No wait is entered after a partial landing, nor the second one after the first has raised, and
      the stages that are entered make the requests they should. */
  ghost predicate StagesInOrder(run: Run, count: int) {
    && (run.agentPool.None? ==> run.gets == [])
    && (run.agentPool.Some? ==> |run.landed| == count && AgentPoolWait(run.gets, run.agentPool.value))
    && (run.readiness.Some? <==> run.agentPool.Some? && run.agentPool.value.Ok?)
    && (run.readiness.None? ==> run.polls == [] && run.cluster == [])
    && (run.readiness.Some? ==> |run.cluster| == 1 && run.cluster[0].ClusterRead?)
  }

  /** The watch of a run, which ends before the cluster is read, is a watch for all requested machines
      over its baseline. */
  ghost predicate WatchFits(run: Run, url: string, count: int, timeout: int) {
    run.readiness.Some? ==>
      && |run.cluster| == 1
      && if count <= 0 then run.readiness.value == Observed(EmptyEnvelope()) && run.polls == []
         else Watched(run.readiness.value, run.polls, run.start, url, timeout, Targets(run.baseline, count),
                      NameSet(count), run.cluster[0].seen)
  }

  /** The two timeouts of a call. */
  datatype Patience = Patience(agentPool: int, readiness: int)

  /** What `run` says about a call that took the pool from `w` to `w'`, making the requests of the run. */
  ghost predicate Happened(w: World, w': World, run: Run, url: string, count: int, request: Request,
                           patience: Patience) {
    && Chronicle(w, Requests(run), w')
    && PutsFit(run.puts, Names(count), run.landed, request)
    && Delivers(Names(count), run.landed, AllAccepted(Names(count), request))
    && (run.agentPool.Some? ==> AllAccepted(Names(count), request))
    && StagesInOrder(run, count) && WaitFits(run, patience.agentPool) && WatchFits(run, url, count, patience.readiness)
  }

  /** Everything the caller asked for has happened. */
  ghost predicate Achieved(run: Run, count: int) {
    && count >= 1
    && (set x | x in run.landed) == NameSet(count)
    && run.agentPool == Some(Ok(true))
    && run.readiness.Some? && run.readiness.value.Observed? && AllMet(run.readiness.value.envelope)
    && run.cluster != [] && run.cluster[0].ClusterRead? && run.cluster[0].ok
  }

  /** What the requests alone show of a success: first the baseline was counted, then the agent pool
      said that it had succeeded, then that many nodes and `count` more were Ready at once, and in the
      end the cluster was read. */
  ghost predicate ShowsSuccess(events: seq<Event>, count: int) {
    exists i, j ::
      && 0 < i < j < |events| - 1
      && events[0].NodesCounted?
      && events[i].AgentPoolRead? && events[i].answer == Answer(200, true, Some(Succeeded))
      && events[j].NodesCounted? && events[j].seen.ready >= events[0].count + count
      && events[|events| - 1].ClusterRead? && events[|events| - 1].ok
  }

  /** The report of a watch that ends because machines failed, given the Ready nodes there were when
      the baseline was counted. It is the truth about the machines, and it gives up nothing exactly if
      the failures outnumber the nodes the baseline missed; so never if the snapshot was right. */
  ghost predicate FailureIsSound(w: World, run: Run, count: int)
    requires run.readiness.Some? && run.readiness.value.ProvisioningFailed?
  {
    var names, present := NameSet(count), run.before.ready;
    var failed := FailedNames(w, names);
    && count >= 1 && AllTerminal(w, names)
    && failed != {} && run.readiness.value.failed == ReportFor(failed)
    && (OutOfReach(w, names, present, Target(100, run.baseline, count)) <==> present < run.baseline + |failed|)
    && (present <= run.baseline ==> OutOfReach(w, names, present, Target(100, run.baseline, count)))
  }

  lemma FailedRunIsSound(w: World, run: Run, url: string, count: int, timeout: int)
    requires run.readiness.Some? && run.readiness.value.ProvisioningFailed?
    requires WatchFits(run, url, count, timeout) && Evolves(run.cluster[0].seen, w)
    ensures FailureIsSound(w, run, count)
  {
    var names := NameSet(count);
    NamesAreDistinct(count);
    DistinctSize(Names(count));
    TargetsAreOrdered(100, 100, run.baseline, count);
    TerminalPersists(run.cluster[0].seen, w, names);
    FailureIsFinalIff(w, names, run.before.ready, run.baseline);
    SubsetSize({}, FailedNames(w, names));
  }

  /** The input on which failing early does give something up: the snapshot failed while one node was
      Ready, the only machine failed, and that one node is as many as were waited for. */
  lemma LostSnapshotMisleads(w: World, name: MachineName)
    requires w.arm == map[name := Failed] && w.ready == 1
    ensures AllTerminal(w, {name}) && FailedNames(w, {name}) == {name}
    ensures NodesComeFromMachines(w, {name}, 1) && w.ready >= Target(100, 0, 1)
    ensures !OutOfReach(w, {name}, 1, Target(100, 0, 1)) && OutOfReach(w, {name}, 1, Target(100, 1, 1))
  {
    assert FailedNames(w, {name}) == {name};
    FailureIsFinalIff(w, {name}, 1, 0);
    FailureIsFinalIff(w, {name}, 1, 1);
  }

  lemma CompleteReadiness(env: Envelope, polls: seq<Poll>, baseline: nat, count: nat, timeout: int, watching: bool)
    requires count >= 1 && Summarises(env, polls, Targets(baseline, count))
    requires Cadence(polls, timeout, watching) && env[100].success
    ensures AllMet(env)
  {
    CadenceOrdersTimes(polls, timeout, watching);
    P100ImpliesAll(env, polls, baseline, count);
  }

  lemma WatchedLater(r: Outcome, polls: seq<Poll>, start: int, url: string, timeout: int, targets: map<nat, nat>,
                     names: set<MachineName>, end: World, later: World)
    requires targets.Keys == PERCENTS
    requires Watched(r, polls, start, url, timeout, targets, names, end) && Evolves(end, later)
    ensures Watched(r, polls, start, url, timeout, targets, names, later)
  {
    if r.ProvisioningFailed? {
      TerminalPersists(end, later, names);
    }
  }

  /** The single test of P100 made by the caller is as good as a test of all percentiles. */
  lemma P100Decides(run: Run, url: string, count: int, timeout: int)
    requires run.readiness.Some? && WatchFits(run, url, count, timeout)
    ensures 100 in run.readiness.value.envelope
    ensures run.readiness.value.Observed? ==>
      (run.readiness.value.envelope[100].success <==> count >= 1 && AllMet(run.readiness.value.envelope))
  {
    var r := run.readiness.value;
    if r.Observed? && r.envelope[100].success {
      CompleteReadiness(r.envelope, run.polls, run.baseline, count, timeout, NameSet(count) != {});
    }
  }

  lemma SuccessShows(run: Run, url: string, count: int, timeout: int, w: World, end: World)
    requires Chronicle(w, Requests(run), end)
    requires StagesInOrder(run, count) && WatchFits(run, url, count, timeout) && Achieved(run, count)
    ensures ShowsSuccess(Requests(run), count)
  {
    var events := Requests(run);
    var env := run.readiness.value.envelope;
    assert 100 in PERCENTS && env[100].success;
    TargetsAreOrdered(100, 100, run.baseline, count);
    var e := HitIsObserved(run.polls, Targets(run.baseline, count)[100], run.start, url, NameSet(count));
    var trace := Trace(run.polls);
    var k :| 0 <= k < |trace| && trace[k] == e;
    var i := |run.puts| + |run.gets|;
    var j := 1 + i + k;
    RequestsAt(run, k);
    ChronicleHolds(w, events, end, e);
    WaitMeans(run.gets, Ok(true));
  }

  lemma RequestsAt(run: Run, k: nat)
    requires run.gets != [] && k < |Trace(run.polls)| && |run.cluster| == 1
    ensures var events, n := Requests(run), |run.puts| + |run.gets|;
      && events[0] == NodesCounted(run.baseline, run.before)
      && |events| == n + |Trace(run.polls)| + 2
      && events[n] == run.gets[|run.gets| - 1]
      && events[1 + n + k] == Trace(run.polls)[k]
      && events[|events| - 1] == run.cluster[0]
  {
    var after := AfterPuts(run);
    assert after[|run.gets| - 1] == run.gets[|run.gets| - 1];
    assert after[|run.gets| + k] == Trace(run.polls)[k];
    assert after[|after| - 1] == run.cluster[0];
    var events := Requests(run);
    forall i | 0 <= i < |after| ensures events[1 + |run.puts| + i] == after[i] {
    }
  }

  /** What a run after a full landing raises: the first thing that kept it from achieving its purpose,
      in the order in which the caller looks. */
  ghost function WaitFailure(run: Run): Option<ScaleError>
    requires run.agentPool.Some?
  {
    if run.agentPool.value.Err? then Some(AgentPoolUnreachable(run.agentPool.value.error))
    else if run.readiness.None? || run.cluster == [] || !run.cluster[0].ClusterRead? || !run.cluster[0].ok then
      Some(ClusterDataUnavailable)
    else if run.readiness.value.ProvisioningFailed? then Some(MachinesFailed(run.readiness.value.failed))
    else if !run.agentPool.value.value then Some(AgentPoolNotSucceeded)
    else if !AllMet(run.readiness.value.envelope) then Some(ReadinessIncomplete)
    else None
  }

  /** What a run raises. */
  ghost function FailureOf(run: Run, count: int, request: Request): Option<ScaleError> {
    if Refused(|Names(count)|, request) then Some(Sharding(ShardingProblem(|Names(count)|, request.workers).value))
    else if run.agentPool.None? then Some(PartialLanding(|run.landed|))
    else WaitFailure(run)
  }

  /** What each error of a run stands for. */
  ghost predicate RaisedFor(r: Option<ScaleError>, run: Run) {
    var watched := run.readiness.Some? && |run.cluster| == 1 && run.cluster[0].ClusterRead?;
    match r
    case None => watched && run.cluster[0].ok && run.agentPool == Some(Ok(true)) && run.readiness.value.Observed?
    case Some(Sharding(_)) => run.puts == [] && run.agentPool == None
    case Some(PartialLanding(n)) => n == |run.landed| && run.agentPool == None
    case Some(AgentPoolUnreachable(e)) => run.agentPool == Some(Err(e)) && run.readiness == None
    case Some(ClusterDataUnavailable) => watched && !run.cluster[0].ok
    case Some(MachinesFailed(names)) =>
      && watched && run.cluster[0].ok
      && run.readiness.value.ProvisioningFailed? && run.readiness.value.failed == names
    case Some(AgentPoolNotSucceeded) =>
      watched && run.cluster[0].ok && run.readiness.value.Observed? && run.agentPool == Some(Ok(false))
    case Some(ReadinessIncomplete) =>
      && watched && run.cluster[0].ok && run.readiness.value.Observed? && run.agentPool == Some(Ok(true))
      && !AllMet(run.readiness.value.envelope)
  }

  lemma FailureMeans(w: World, w': World, run: Run, url: string, count: int, request: Request, patience: Patience)
    requires Happened(w, w', run, url, count, request, patience)
    ensures RaisedFor(FailureOf(run, count, request), run)
  {
  }

  /** What the operation's metadata says about the stages. */
  ghost predicate MetadataMatches(metadata: map<MetaKey, Meta>, run: Run) {
    && (PercentileNodeReadinessTimes in metadata <==> run.readiness.Some?)
    && (run.readiness.Some? ==> metadata[PercentileNodeReadinessTimes] == Percentiles(run.readiness.value.envelope))
    && (run.readiness.Some? ==>
      && NodeReadinessTime in metadata && metadata[NodeReadinessTime].Time?
      && (100 in run.readiness.value.envelope ==>
        var elapsed := run.readiness.value.envelope[100].elapsed;
        metadata[NodeReadinessTime].t == if elapsed.Some? then elapsed.value else 0))
    && (FailedMachines in metadata <==> run.readiness.Some? && run.readiness.value.ProvisioningFailed?)
    && (FailedMachines in metadata ==> metadata[FailedMachines] == Failures(run.readiness.value.failed))
    && (SuccessfulMachines in metadata ==> metadata[SuccessfulMachines] == Count(|run.landed|))
  }

  function P100Time(env: Envelope): int {
    if 100 in env && env[100].elapsed.Some? then env[100].elapsed.value else 0
  }

  /** The metadata after the readiness stage. */
  function WithReadiness(m: map<MetaKey, Meta>, readiness: Outcome): map<MetaKey, Meta> {
    var m' := if readiness.ProvisioningFailed? then m[FailedMachines := Failures(readiness.failed)] else m;
    var m'' := m'[PercentileNodeReadinessTimes := Percentiles(readiness.envelope)];
    m''[NodeReadinessTime := Time(P100Time(readiness.envelope))]
  }

  lemma MetadataExtends(m: map<MetaKey, Meta>, base: Run, run: Run, readiness: Outcome, clusterData: bool)
    requires MetadataMatches(m, base) && base.readiness.None?
    requires run.readiness == Some(readiness) && run.landed == base.landed
    ensures MetadataMatches(WithReadiness(m, readiness), run)
    ensures MetadataMatches(WithReadiness(m, readiness)[ClusterInfo := Snapshot], run)
  {
  }

  /** The readiness stage: watch the nodes of a fully landed request, record the percentiles, and take
      the snapshot of the cluster. */
  method WatchAndRecord(pool: Pool, op: ScaleOperation, url: string, count: nat, readinessTimeout: int, baseline: nat,
                        ghost base: Run)
    returns (readiness: Outcome, clusterData: bool, ghost run: Run)
    requires base.readiness.None? && base.baseline == baseline && MetadataMatches(op.metadata, base)
    modifies pool, op`metadata
    ensures run == base.(readiness := Some(readiness), start := run.start, polls := run.polls, cluster := run.cluster)
    ensures pool.history == old(pool.history) + (Trace(run.polls) + run.cluster)
    ensures Chronicle(old(pool.world), Trace(run.polls) + run.cluster, pool.world)
    ensures |run.cluster| == 1 && run.cluster[0] == ClusterRead(clusterData, pool.world)
    ensures old(pool.world).clock <= run.start && WatchFits(run, url, count, readinessTimeout)
    ensures MetadataMatches(op.metadata, run)
  {
    var expected := NameSet(count);
    ghost var w, h, polls, start := pool.world, pool.history, [], 0;
    readiness, polls, start := WaitForReadiness(pool, url, count, readinessTimeout, baseline, expected);
    ghost var watched := pool.world;
    if readiness.ProvisioningFailed? {
      op.AddMetadata(FailedMachines, Failures(readiness.failed));
    }
    op.AddMetadata(PercentileNodeReadinessTimes, Percentiles(readiness.envelope));
    op.AddMetadata(NodeReadinessTime, Time(P100Time(readiness.envelope)));
    clusterData := pool.GetClusterData();
    ghost var read := ClusterRead(clusterData, pool.world);
    ChronicleNext(w, Trace(polls), watched, read);
    Associate(h, Trace(polls), [read]);
    if clusterData {
      op.AddMetadata(ClusterInfo, Snapshot);
    }
    if count > 0 {
      WatchedLater(readiness, polls, start, url, readinessTimeout, Targets(baseline, count), expected, watched,
        pool.world);
    }
    run := base.(readiness := Some(readiness), start := start, polls := polls, cluster := [read]);
    MetadataExtends(old(op.metadata), base, run, readiness, clusterData);
  }

  /** The caller's last tests, with P100 for all percentiles. */
  function LastTests(readiness: Outcome, clusterData: bool, agentPool: bool): Option<ScaleError>
    requires 100 in readiness.envelope
  {
    if !clusterData then Some(ClusterDataUnavailable)
    else if readiness.ProvisioningFailed? then Some(MachinesFailed(readiness.failed))
    else if !agentPool then Some(AgentPoolNotSucceeded)
    else if !readiness.envelope[100].success then Some(ReadinessIncomplete)
    else None
  }

  /** What the caller tests at the end is what it wants to know. */
  lemma AchievedIff(run: Run, url: string, count: int, timeout: int)
    requires SetOf(run.landed) == NameSet(count)
    requires run.agentPool.Some? && run.agentPool.value.Ok?
    requires run.readiness.Some? && |run.cluster| == 1 && run.cluster[0].ClusterRead?
    requires WatchFits(run, url, count, timeout)
    ensures 100 in run.readiness.value.envelope
    ensures WaitFailure(run) == LastTests(run.readiness.value, run.cluster[0].ok, run.agentPool.value.value)
    ensures WaitFailure(run) == None <==> Achieved(run, count)
  {
    P100Decides(run, url, count, timeout);
  }

  lemma StagesFollow(base: Run, gets: seq<Event>, agentPool: Result<bool, AgentPoolError>, run: Run, count: int)
    requires |base.landed| == count && AgentPoolWait(gets, agentPool) && agentPool.Ok?
    requires run == base.(agentPool := Some(agentPool), gets := gets, readiness := run.readiness, start := run.start,
                          polls := run.polls, cluster := run.cluster)
    requires run.readiness.Some? && |run.cluster| == 1 && run.cluster[0].ClusterRead?
    ensures StagesInOrder(run, count)
  {
  }

  /** The two waits, entered after a full landing. */
  method AwaitMachines(pool: Pool, op: ScaleOperation, url: string, count: nat, patience: Patience, baseline: nat,
                       ghost base: Run)
    returns (r: Option<ScaleError>, ghost run: Run)
    requires base.agentPool.None? && base.readiness.None? && base.polls == [] && base.cluster == []
    requires base.baseline == baseline && |base.landed| == count && SetOf(base.landed) == NameSet(count)
    requires base.before.clock <= pool.world.clock && MetadataMatches(op.metadata, base)
    modifies pool, op`metadata
    ensures run == base.(agentPool := run.agentPool, gets := run.gets, readiness := run.readiness, start := run.start,
                         polls := run.polls, cluster := run.cluster)
    ensures pool.history == old(pool.history) + AfterPuts(run)
    ensures Chronicle(old(pool.world), AfterPuts(run), pool.world)
    ensures run.agentPool.Some? && StagesInOrder(run, count)
    ensures WaitFits(run, patience.agentPool) && WatchFits(run, url, count, patience.readiness)
    ensures MetadataMatches(op.metadata, run)
    ensures r == WaitFailure(run) && (r.None? <==> Achieved(run, count))
  {
    ghost var w, h := pool.world, pool.history;
    var agentPool;
    ghost var gets;
    agentPool, gets := WaitForAgentPool(pool, patience.agentPool);
    ghost var waited := pool.world;
    run := base.(agentPool := Some(agentPool), gets := gets);
    if agentPool.Err? {
      assert Trace([]) + [] == [] && gets + [] == gets;
      return Some(AgentPoolUnreachable(agentPool.error)), run;
    }
    var readiness, clusterData;
    readiness, clusterData, run := WatchAndRecord(pool, op, url, count, patience.readiness, baseline, run);
    ghost var rest := Trace(run.polls) + run.cluster;
    Associate(h, gets, rest);
    ChronicleConcat(w, gets, waited, rest, pool.world);
    AchievedIff(run, url, count, patience.readiness);
    StagesFollow(base, gets, agentPool, run, count);
    ChronicleEvolves(w, gets, waited);
    r := LastTests(readiness, clusterData, agentPool.value);
  }

  /** The requests of a run that ends after its requests for machines. */
  lemma OnlyPutsMade(run: Run)
    requires run.gets == [] && run.polls == [] && run.cluster == []
    ensures AfterPuts(run) == [] && Requests(run) == [NodesCounted(run.baseline, run.before)] + run.puts
  {
    assert Trace([]) + [] == [] && run.puts + [] == run.puts;
  }

  lemma RequestsFollow(h: seq<Event>, w: World, counted: World, submitted: World, run: Run, end: World)
    requires Chronicle(w, [NodesCounted(run.baseline, run.before)], counted)
    requires Chronicle(counted, run.puts, submitted) && Chronicle(submitted, AfterPuts(run), end)
    ensures h + [NodesCounted(run.baseline, run.before)] + run.puts + AfterPuts(run) == h + Requests(run)
    ensures Chronicle(w, Requests(run), end)
  {
    var first := [NodesCounted(run.baseline, run.before)];
    Associate(h + first, run.puts, AfterPuts(run));
    Associate(h, first, run.puts + AfterPuts(run));
    ChronicleConcat(counted, run.puts, submitted, AfterPuts(run), end);
    ChronicleConcat(w, first, counted, run.puts + AfterPuts(run), end);
  }

  /** The baseline count and the requests for machines. */
  method CountAndSubmit(pool: Pool, op: ScaleOperation, count: int, request: Request)
    returns (baseline: nat, r: Result<seq<MachineName>, ShardingError>, ghost run: Run, ghost counted: World)
    requires op.metadata == map[]
    modifies pool, op`metadata
    ensures run == Run(baseline, counted, run.puts, run.landed, None, [], None, 0, [], [])
    ensures run.landed == if r.Ok? then r.value else []
    ensures pool.history == old(pool.history) + [NodesCounted(baseline, counted)] + run.puts
    ensures Chronicle(old(pool.world), [NodesCounted(baseline, counted)], counted)
    ensures Chronicle(counted, run.puts, pool.world)
    ensures PutsFit(run.puts, Names(count), run.landed, request)
    ensures r.Err? <==> Refused(|Names(count)|, request)
    ensures r.Err? ==> Some(r.error) == ShardingProblem(|Names(count)|, request.workers)
    ensures Delivers(Names(count), run.landed, AllAccepted(Names(count), request))
    ensures r.Ok? && |r.value| == count ==>
      AllAccepted(Names(count), request) && SetOf(r.value) == NameSet(count)
    ensures MetadataMatches(op.metadata, run)
  {
    baseline := pool.ReadyNodeCount();
    counted := pool.world;
    ChronicleOne(old(pool.world), NodesCounted(baseline, counted), counted);
    var names := Names(count);
    NamesAreDistinct(count);
    ghost var puts;
    r, puts := Submit(pool, names, request);
    run := Run(baseline, counted, puts, if r.Ok? then r.value else [], None, [], None, 0, [], []);
    if r.Ok? {
      op.AddMetadata(SuccessfulMachines, Count(|r.value|));
      FullLandingIsAll(names, r.value);
    }
  }

  /** The body of the `with` block of `scale_machine`. `None` is a normal return. */
  method ScaleBody(pool: Pool, op: ScaleOperation, url: string, count: int, request: Request, patience: Patience)
    returns (r: Option<ScaleError>, ghost run: Run)
    requires op.metadata == map[]
    modifies pool, op`metadata
    ensures pool.history == old(pool.history) + Requests(run)
    ensures Happened(old(pool.world), pool.world, run, url, count, request, patience)
    ensures r == FailureOf(run, count, request) && (r.None? <==> Achieved(run, count))
    ensures MetadataMatches(op.metadata, run)
  {
    ghost var w, h := pool.world, pool.history;
    var baseline, submitted;
    ghost var counted;
    baseline, submitted, run, counted := CountAndSubmit(pool, op, count, request);
    ghost var landed := pool.world;
    if submitted.Err? || |submitted.value| != count {
      OnlyPutsMade(run);
      ChronicleConcat(w, [NodesCounted(baseline, counted)], counted, run.puts, landed);
      Associate(h, [NodesCounted(baseline, counted)], run.puts);
      r := Some(if submitted.Err? then Sharding(submitted.error) else PartialLanding(|submitted.value|));
      return;
    }
    ChronicleEvolves(counted, run.puts, landed);
    r, run := AwaitMachines(pool, op, url, |submitted.value|, patience, baseline, run);
    RequestsFollow(h, w, counted, landed, run, pool.world);
  }

  /** `scale_machine`: the operation records a success exactly when the call returns normally,
      which it does exactly when everything asked for was achieved, as the pool's history shows. */
  method ScaleMachine(pool: Pool, url: string, count: int, request: Request, patience: Patience)
    returns (r: Option<ScaleError>, op: ScaleOperation, ghost run: Run)
    modifies pool
    ensures fresh(op) && op.ended
    ensures op.success == r.None? && op.error == r
    ensures pool.history == old(pool.history) + Requests(run)
    ensures Happened(old(pool.world), pool.world, run, url, count, request, patience)
    ensures r == FailureOf(run, count, request) && (r.None? <==> Achieved(run, count))
    ensures RaisedFor(r, run)
    ensures r.None? ==> ShowsSuccess(Requests(run), count)
    ensures r.None? || AfterPuts(run) != [] ==> AllAccepted(Names(count), request) && Landed(run.puts) == NameSet(count)
    ensures run.readiness.Some? && run.readiness.value.ProvisioningFailed? ==> FailureIsSound(pool.world, run, count)
    ensures MetadataMatches(op.metadata, run)
  {
    op := new Operation();
    op.Enter();
    r, run := ScaleBody(pool, op, url, count, request, patience);
    op.Exit(r);
    RunIsSound(old(pool.world), pool.world, run, url, count, request, patience);
    FailureMeans(old(pool.world), pool.world, run, url, count, request, patience);
  }

  lemma RunIsSound(w: World, w': World, run: Run, url: string, count: int, request: Request, patience: Patience)
    requires Happened(w, w', run, url, count, request, patience)
    ensures Achieved(run, count) ==> ShowsSuccess(Requests(run), count)
    ensures Achieved(run, count) || AfterPuts(run) != [] ==>
      AllAccepted(Names(count), request) && Landed(run.puts) == NameSet(count)
    ensures run.readiness.Some? && run.readiness.value.ProvisioningFailed? ==> FailureIsSound(w', run, count)
  {
    if Achieved(run, count) {
      SuccessShows(run, url, count, patience.readiness, w, w');
    }
    if run.agentPool.None? {
      assert AfterPuts(run) == [];
    } else {
      NamesAreDistinct(count);
      FullLandingIsAll(Names(count), run.landed);
    }
    if run.readiness.Some? && run.readiness.value.ProvisioningFailed? {
      LastOfRun(w, run, w');
      FailedRunIsSound(w', run, url, count, patience.readiness);
    }
  }

  lemma LastOfRun(w: World, run: Run, w': World)
    requires Chronicle(w, Requests(run), w') && |run.cluster| == 1
    ensures Evolves(run.cluster[0].seen, w')
  {
    var events, e := Requests(run), run.cluster[0];
    assert events[|events| - 1] == e;
    ChronicleHolds(w, events, w', e);
  }

  /** `MachineCRUD.scale_machine`: the boolean, the record and the outcome agree in every run. */
  method CrudScaleMachine(pool: Pool, url: string, count: int, request: Request, patience: Patience)
    returns (ok: bool, op: ScaleOperation, ghost run: Run)
    modifies pool
    ensures fresh(op) && op.ended
    ensures ok == op.success
    ensures pool.history == old(pool.history) + Requests(run)
    ensures Happened(old(pool.world), pool.world, run, url, count, request, patience)
    ensures ok <==> Achieved(run, count)
    ensures ok ==> ShowsSuccess(Requests(run), count)
    ensures ok || AfterPuts(run) != [] ==> AllAccepted(Names(count), request) && Landed(run.puts) == NameSet(count)
  {
    var raised;
    raised, op, run := ScaleMachine(pool, url, count, request, patience);
    ok := raised.None?;
  }
}
