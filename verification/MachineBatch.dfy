/** Sharding a list of machine names over concurrent workers. */
module MachineBatch {
  import opened Common
  import opened MachineNames
  import opened ArmPool
  import opened Retries

  const BATCH_LIMIT: nat := 50

  /** `w * perWorker`, the first position of worker `w`, by repeated addition. */
  function Offset(w: nat, perWorker: nat): nat {
    if w == 0 then 0 else Offset(w - 1, perWorker) + perWorker
  }

  lemma {:induction false} OffsetIsProduct(w: nat, perWorker: nat)
    ensures Offset(w, perWorker) == w * perWorker
  {
    if w > 0 {
      OffsetIsProduct(w - 1, perWorker);
      assert w * perWorker == (w - 1) * perWorker + perWorker;
    }
  }

  lemma {:induction false} OffsetGrows(v: nat, w: nat, perWorker: nat)
    requires v < w
    ensures Offset(v, perWorker) + perWorker <= Offset(w, perWorker)
  {
    if v < w - 1 {
      OffsetGrows(v, w - 1, perWorker);
    }
  }

  /** The names worker `w` is given; the bounds are clamped as Python clamps a slice. */
  function Slice(names: seq<MachineName>, perWorker: nat, w: nat): seq<MachineName> {
    var start := Offset(w, perWorker);
    if start > |names| then [] else names[start..Min(start + perWorker, |names|)]
  }

  /** The slices of the workers in `order`, one after the other. */
  ghost function Gather(names: seq<MachineName>, perWorker: nat, order: seq<nat>): seq<MachineName> {
    if order == [] then []
    else
      Gather(names, perWorker, order[..|order| - 1]) + Slice(names, perWorker, order[|order| - 1])
  }

  ghost function FirstWorkers(k: nat): (order: seq<nat>)
    ensures |order| == k && forall i :: 0 <= i < k ==> order[i] == i
  {
    seq(k, i => i)
  }

  /** Every worker of an even sharding has a full row of `names`. */
  ghost predicate EvenShards(names: seq<MachineName>, perWorker: nat, workers: nat) {
    Offset(workers, perWorker) == |names|
  }

  lemma SliceIsRow(names: seq<MachineName>, perWorker: nat, workers: nat, w: nat)
    requires EvenShards(names, perWorker, workers) && w < workers
    ensures Offset(w, perWorker) + perWorker <= |names|
    ensures Slice(names, perWorker, w) == names[Offset(w, perWorker)..Offset(w, perWorker) + perWorker]
  {
    OffsetGrows(w, workers, perWorker);
  }

  /** In worker order the slices are a partition of `names`. */
  lemma SlicesPartition(names: seq<MachineName>, perWorker: nat, workers: nat)
    requires EvenShards(names, perWorker, workers)
    ensures Gather(names, perWorker, FirstWorkers(workers)) == names
  {
    FirstSlices(names, perWorker, workers, workers);
  }

  lemma {:induction false} FirstSlices(names: seq<MachineName>, perWorker: nat, workers: nat, k: nat)
    requires EvenShards(names, perWorker, workers) && k <= workers
    ensures Offset(k, perWorker) <= |names|
    ensures Gather(names, perWorker, FirstWorkers(k)) == names[..Offset(k, perWorker)]
  {
    if k > 0 {
      FirstSlices(names, perWorker, workers, k - 1);
      SliceIsRow(names, perWorker, workers, k - 1);
      assert FirstWorkers(k)[..k - 1] == FirstWorkers(k - 1);
    }
  }

  /** The names in a list. */
  function SetOf(names: seq<MachineName>): set<MachineName> {
    set x | x in names
  }

  /** `_create_batch_machines`: every attempt names exactly the machines of the chunk. */
  method CreateBatchMachines(pool: Pool, chunk: seq<MachineName>, status: nat -> int)
    returns (r: Result<seq<MachineName>, BatchError>, ghost tries: seq<Event>)
    modifies pool
    ensures pool.history == old(pool.history) + tries && Chronicle(old(pool.world), tries, pool.world)
    ensures chunk == [] ==> r == Ok([]) && tries == []
    ensures r == Err(ChunkTooLarge) <==> |chunk| > 50
    ensures |chunk| > 50 ==> tries == []
    ensures 0 < |chunk| <= BATCH_LIMIT ==>
      && Tries(tries, Put(chunk[0], chunk[1..]), status) && Machines(Put(chunk[0], chunk[1..])) == chunk
      && |tries| == Min(Decisive(status, 0) + 1, BATCH_ATTEMPTS)
      && (Lands(status) ==> r == Ok(chunk)) && (!Lands(status) ==> r.Err?)
    ensures OnlyPuts(tries, BATCH_LIMIT) && Landed(tries) == if r.Ok? then SetOf(r.value) else {}
    ensures |chunk| <= BATCH_LIMIT ==> Targeted(tries) == SetOf(chunk)
  {
    if chunk == [] {
      return Ok([]), [];
    }
    if |chunk| > BATCH_LIMIT {
      return Err(ChunkTooLarge), [];
    }
    var put := Put(chunk[0], chunk[1..]);
    assert Machines(put) == chunk;
    var answer, slept;
    answer, slept, tries := MakeBatchRequest(pool, put, status);
    AtMost(tries, |Machines(put)|, BATCH_LIMIT);
    r := if answer.Ok? then Ok(chunk) else Err(answer.error);
  }

  lemma {:induction false} AtMost(events: seq<Event>, m: nat, n: nat)
    requires OnlyPuts(events, m) && m <= n
    ensures OnlyPuts(events, n)
  {
    if events != [] {
      AtMost(events[..|events| - 1], m, n);
    }
  }

  datatype ShardingError = WorkersNotPositive | UnevenShards | ShardTooLarge

  /** Why a sharding is refused before any request is sent. */
  function ShardingProblem(n: nat, workers: int): Option<ShardingError> {
    if workers <= 0 then Some(WorkersNotPositive)
    else if n % workers != 0 then Some(UnevenShards)
    else if n / workers > BATCH_LIMIT then Some(ShardTooLarge)
    else None
  }

  /** The workers whose slice lands. A worker without machines sends nothing and cannot fail. */
  predicate Survives(n: nat, status: (nat, nat) -> int, w: nat) {
    n == 0 || Lands(Answers(status, w))
  }

  /** The answers to the attempts of worker `w`. */
  function Answers(status: (nat, nat) -> int, w: nat): nat -> int {
    (k: nat) => status(w, k)
  }

  /** `survivors` lists, in some order of completion, the workers that succeed. */
  ghost predicate CompletionOrder(survivors: seq<nat>, done: set<nat>, n: nat, status: (nat, nat) -> int) {
    && Distinct(survivors)
    && forall w: nat :: w in survivors <==> w in done && Survives(n, status, w)
  }

  function Workers(k: nat): (ws: set<nat>)
    ensures |ws| == k && forall w: nat :: w in ws <==> w < k
  {
    if k == 0 then {} else Workers(k - 1) + {k - 1}
  }

  /** `_scale_machine_batch`, where `status(w, k)` answers attempt `k` of worker `w` and the workers
      finish in an arbitrary order. */
  method ScaleMachineBatch(pool: Pool, names: seq<MachineName>, workers: int, status: (nat, nat) -> int)
    returns (r: Result<seq<MachineName>, ShardingError>, ghost perWorker: nat, ghost survivors: seq<nat>,
             ghost puts: seq<Event>)
    modifies pool
    ensures pool.history == old(pool.history) + puts && Chronicle(old(pool.world), puts, pool.world)
    ensures OnlyPuts(puts, BATCH_LIMIT)
    ensures r.Err? ==> puts == []
    ensures r.Ok? ==> Targeted(puts) == SetOf(names) && Landed(puts) == SetOf(r.value)
    ensures r.Err? <==> ShardingProblem(|names|, workers).Some?
    ensures r.Err? ==> Some(r.error) == ShardingProblem(|names|, workers)
    ensures r == Err(WorkersNotPositive) <==> workers <= 0
    ensures r == Err(UnevenShards) <==> workers > 0 && |names| % workers != 0
    ensures r == Err(ShardTooLarge) <==> workers > 0 && |names| % workers == 0 && |names| / workers > 50
    ensures r.Ok? ==>
      && workers > 0 && perWorker == |names| / workers && EvenShards(names, perWorker, workers)
      && CompletionOrder(survivors, Workers(workers), |names|, status)
      && r.value == Gather(names, perWorker, survivors)
  {
    perWorker, survivors, puts := 0, [], [];
    if workers <= 0 {
      return Err(WorkersNotPositive), 0, [], [];
    }
    if |names| % workers != 0 {
      return Err(UnevenShards), 0, [], [];
    }
    var share: nat := |names| / workers;
    if share > BATCH_LIMIT {
      return Err(ShardTooLarge), 0, [], [];
    }
    SharesAreEven(names, workers);
    var successful;
    perWorker := share;
    successful, survivors, puts := Dispatch(pool, names, share, workers, status);
    AllSlicesAreAll(names, share, workers, Targeted(puts));
    r := Ok(successful);
  }

  /** `run_worker`: the whole slice of the worker, or nothing when its request raises. */
  method RunWorker(pool: Pool, names: seq<MachineName>, perWorker: nat, workers: nat, status: (nat, nat) -> int, w: nat)
    returns (created: seq<MachineName>, ghost tries: seq<Event>)
    requires EvenShards(names, perWorker, workers) && perWorker <= BATCH_LIMIT && (perWorker == 0 <==> names == [])
    requires w < workers
    modifies pool
    ensures pool.history == old(pool.history) + tries && Chronicle(old(pool.world), tries, pool.world)
    ensures created == if Survives(|names|, status, w) then Slice(names, perWorker, w) else []
    ensures OnlyPuts(tries, BATCH_LIMIT)
    ensures Targeted(tries) == SetOf(Slice(names, perWorker, w)) && Landed(tries) == SetOf(created)
    ensures names != [] ==> |tries| == Min(Decisive(Answers(status, w), 0) + 1, BATCH_ATTEMPTS)
  {
    SliceIsRow(names, perWorker, workers, w);
    var slice := Slice(names, perWorker, w);
    var result;
    result, tries := CreateBatchMachines(pool, slice, Answers(status, w));
    created := if result.Ok? then result.value else [];
  }

  /** The machines requested so far are those of the slices of the workers that are `done`. */
  ghost predicate SlicesOf(done: set<nat>, names: seq<MachineName>, perWorker: nat, targeted: set<MachineName>) {
    && (forall w: nat, x :: w in done && x in Slice(names, perWorker, w) ==> x in targeted)
    && (forall x :: x in targeted ==> exists w: nat :: w in done && x in Slice(names, perWorker, w))
  }

  lemma OneMoreSlice(done: set<nat>, names: seq<MachineName>, perWorker: nat, targeted: set<MachineName>, w: nat)
    requires SlicesOf(done, names, perWorker, targeted)
    ensures SlicesOf(done + {w}, names, perWorker, targeted + SetOf(Slice(names, perWorker, w)))
  {
    forall x | x in targeted
      ensures exists v: nat :: v in done + {w} && x in Slice(names, perWorker, v)
    {
      var v: nat :| v in done && x in Slice(names, perWorker, v);
      assert v in done + {w};
    }
  }

  lemma AllSlicesAreAll(names: seq<MachineName>, perWorker: nat, workers: nat, targeted: set<MachineName>)
    requires EvenShards(names, perWorker, workers) && SlicesOf(Workers(workers), names, perWorker, targeted)
    ensures targeted == SetOf(names)
  {
    forall x | x in names ensures x in targeted {
      SlicesPartition(names, perWorker, workers);
      var i := GatherIsSound(names, perWorker, FirstWorkers(workers), x);
      assert i in Workers(workers);
    }
    forall x | x in targeted ensures x in names {
      var w: nat :| w in Workers(workers) && x in Slice(names, perWorker, w);
      var k := SlicePosition(names, perWorker, w, x);
    }
  }

  lemma SetOfConcat(a: seq<MachineName>, b: seq<MachineName>)
    ensures SetOf(a + b) == SetOf(a) + SetOf(b)
  {
  }

  /** Run the workers in an arbitrary order of completion. */
  method Dispatch(pool: Pool, names: seq<MachineName>, perWorker: nat, workers: nat, status: (nat, nat) -> int)
    returns (successful: seq<MachineName>, ghost survivors: seq<nat>, ghost puts: seq<Event>)
    requires EvenShards(names, perWorker, workers) && perWorker <= BATCH_LIMIT && (perWorker == 0 <==> names == [])
    modifies pool
    ensures pool.history == old(pool.history) + puts && Chronicle(old(pool.world), puts, pool.world)
    ensures CompletionOrder(survivors, Workers(workers), |names|, status)
    ensures successful == Gather(names, perWorker, survivors)
    ensures OnlyPuts(puts, BATCH_LIMIT) && Landed(puts) == SetOf(successful)
    ensures SlicesOf(Workers(workers), names, perWorker, Targeted(puts))
  {
    successful, survivors, puts := [], [], [];
    ghost var start, h := pool.world, pool.history;
    var all: set<nat> := Workers(workers);
    var pending := all;
    NothingCompleted(all, |names|, status);
    while pending != {}
      invariant pending <= all
      invariant CompletionOrder(survivors, all - pending, |names|, status)
      invariant successful == Gather(names, perWorker, survivors)
      invariant pool.history == h + puts && Chronicle(start, puts, pool.world)
      invariant OnlyPuts(puts, BATCH_LIMIT) && Landed(puts) == SetOf(successful)
      invariant SlicesOf(all - pending, names, perWorker, Targeted(puts))
      decreases |pending|
    {
      var w: nat :| w in pending;
      assert w in all;
      ghost var before := pool.world;
      var created;
      ghost var tries;
      created, tries := RunWorker(pool, names, perWorker, workers, status, w);
      Completes(survivors, all - pending, |names|, status, w);
      Finishes(all, pending, w);
      GatherExtends(names, perWorker, survivors, w);
      OneMoreSlice(all - pending, names, perWorker, Targeted(puts), w);
      PutsFollow(h, start, puts, before, tries, pool.world);
      SetOfConcat(successful, created);
      puts := puts + tries;
      successful := successful + created;
      survivors := if Survives(|names|, status, w) then survivors + [w] else survivors;
      pending := pending - {w};
    }
    assert all - {} == all;
  }

  lemma PutsFollow(h: seq<Event>, u: World, puts: seq<Event>, v: World, tries: seq<Event>, w: World)
    requires Chronicle(u, puts, v) && Chronicle(v, tries, w)
    requires OnlyPuts(puts, BATCH_LIMIT) && OnlyPuts(tries, BATCH_LIMIT)
    ensures h + puts + tries == h + (puts + tries) && Chronicle(u, puts + tries, w)
    ensures OnlyPuts(puts + tries, BATCH_LIMIT)
    ensures Targeted(puts + tries) == Targeted(puts) + Targeted(tries)
    ensures Landed(puts + tries) == Landed(puts) + Landed(tries)
  {
    Associate(h, puts, tries);
    ChronicleConcat(u, puts, v, tries, w);
    PutsConcat(puts, tries, BATCH_LIMIT);
  }

  lemma Finishes(all: set<nat>, pending: set<nat>, w: nat)
    requires w in pending && pending <= all
    ensures all - (pending - {w}) == (all - pending) + {w} && pending - {w} <= all
  {
  }

  lemma NothingCompleted(all: set<nat>, n: nat, status: (nat, nat) -> int)
    ensures CompletionOrder([], all - all, n, status)
  {
  }

  lemma GatherExtends(names: seq<MachineName>, perWorker: nat, order: seq<nat>, w: nat)
    ensures Gather(names, perWorker, order + [w]) == Gather(names, perWorker, order) + Slice(names, perWorker, w)
  {
    assert (order + [w])[..|order|] == order;
  }

  lemma Completes(survivors: seq<nat>, done: set<nat>, n: nat, status: (nat, nat) -> int, w: nat)
    requires CompletionOrder(survivors, done, n, status) && w !in done
    ensures CompletionOrder(if Survives(n, status, w) then survivors + [w] else survivors, done + {w}, n, status)
  {
    assert w !in survivors;
    var longer := survivors + [w];
    assert forall v: nat :: v in longer <==> v in survivors || v == w;
  }

  lemma SharesAreEven(names: seq<MachineName>, workers: nat)
    requires workers > 0 && |names| % workers == 0
    ensures EvenShards(names, |names| / workers, workers)
    ensures |names| / workers == 0 <==> names == []
  {
    OffsetIsProduct(workers, |names| / workers);
  }

  // ---- What any completion order delivers ----

  ghost predicate KnownWorkers(order: seq<nat>, workers: nat) {
    forall i :: 0 <= i < |order| ==> order[i] < workers
  }

  lemma {:induction false} GatherLength(names: seq<MachineName>, perWorker: nat, workers: nat, order: seq<nat>)
    requires EvenShards(names, perWorker, workers) && KnownWorkers(order, workers)
    ensures |Gather(names, perWorker, order)| == Offset(|order|, perWorker)
  {
    if order != [] {
      var k := |order| - 1;
      GatherLength(names, perWorker, workers, order[..k]);
      SliceIsRow(names, perWorker, workers, order[k]);
    }
  }

  /** The result holds exactly the names of the surviving slices: nothing else ... */
  lemma {:induction false} GatherIsSound(names: seq<MachineName>, perWorker: nat, order: seq<nat>, x: MachineName)
    returns (i: nat)
    requires x in Gather(names, perWorker, order)
    ensures i < |order| && x in Slice(names, perWorker, order[i])
  {
    var init := order[..|order| - 1];
    if x in Gather(names, perWorker, init) {
      i := GatherIsSound(names, perWorker, init, x);
    } else {
      i := |init|;
    }
  }

  /** ... and all of them. */
  lemma {:induction false} GatherIsComplete(names: seq<MachineName>, perWorker: nat, order: seq<nat>, i: nat,
                                            x: MachineName)
    requires i < |order| && x in Slice(names, perWorker, order[i])
    ensures x in Gather(names, perWorker, order)
  {
    var init := order[..|order| - 1];
    if i < |init| {
      GatherIsComplete(names, perWorker, init, i, x);
    }
  }

  lemma SlicesAreDisjoint(names: seq<MachineName>, perWorker: nat, v: nat, w: nat, x: MachineName)
    requires Distinct(names) && v < w
    ensures !(x in Slice(names, perWorker, v) && x in Slice(names, perWorker, w))
  {
    OffsetGrows(v, w, perWorker);
    if x in Slice(names, perWorker, v) {
      var k := SlicePosition(names, perWorker, v, x);
      if x in Slice(names, perWorker, w) {
        var l := SlicePosition(names, perWorker, w, x);
      }
    }
  }

  lemma SlicePosition(names: seq<MachineName>, perWorker: nat, w: nat, x: MachineName) returns (k: nat)
    requires x in Slice(names, perWorker, w)
    ensures Offset(w, perWorker) <= k < Offset(w, perWorker) + perWorker && k < |names| && names[k] == x
  {
    var s := Slice(names, perWorker, w);
    var i :| 0 <= i < |s| && s[i] == x;
    k := Offset(w, perWorker) + i;
  }

  /** Whatever the schedule and whichever workers fail, no name is delivered twice. */
  lemma {:induction false} GatherIsDistinct(names: seq<MachineName>, perWorker: nat, order: seq<nat>)
    requires Distinct(names) && Distinct(order)
    ensures Distinct(Gather(names, perWorker, order))
  {
    if order != [] {
      var n := |order| - 1;
      var head, last := Gather(names, perWorker, order[..n]), Slice(names, perWorker, order[n]);
      GatherIsDistinct(names, perWorker, order[..n]);
      forall x | x in head ensures x !in last {
        var i := GatherIsSound(names, perWorker, order[..n], x);
        if order[i] < order[n] {
          SlicesAreDisjoint(names, perWorker, order[i], order[n], x);
        } else {
          SlicesAreDisjoint(names, perWorker, order[n], order[i], x);
        }
      }
      Disjoint(head, last);
    }
  }

  lemma Disjoint(a: seq<MachineName>, b: seq<MachineName>)
    requires Distinct(a) && Distinct(b) && forall x :: x in a ==> x !in b
    ensures Distinct(a + b)
  {
    forall i, j | 0 <= i < j < |a + b| ensures (a + b)[i] != (a + b)[j] {
      if i < |a| <= j {
        assert a[i] in a && b[j - |a|] in b;
      }
    }
  }

  /** All requested machines land exactly when every worker succeeds. */
  lemma CompleteIffAllSurvive(names: seq<MachineName>, perWorker: nat, workers: nat, survivors: seq<nat>,
                              status: (nat, nat) -> int)
    requires EvenShards(names, perWorker, workers) && names != []
    requires CompletionOrder(survivors, Workers(workers), |names|, status)
    ensures |Gather(names, perWorker, survivors)| <= |names|
    ensures |Gather(names, perWorker, survivors)| == |names| <==>
      forall w: nat :: w < workers ==> Survives(|names|, status, w)
  {
    SurvivorCount(survivors, workers, |names|, status);
    SurvivorsAreKnown(survivors, workers, |names|, status);
    LengthTells(names, perWorker, workers, survivors);
  }

  lemma LengthTells(names: seq<MachineName>, perWorker: nat, workers: nat, order: seq<nat>)
    requires EvenShards(names, perWorker, workers) && names != []
    requires KnownWorkers(order, workers) && |order| <= workers
    ensures |Gather(names, perWorker, order)| <= |names|
    ensures |Gather(names, perWorker, order)| == |names| <==> |order| == workers
  {
    GatherLength(names, perWorker, workers, order);
    OffsetIsProduct(workers, perWorker);
    if |order| < workers {
      OffsetGrows(|order|, workers, perWorker);
    }
  }

  lemma SurvivorsAreKnown(survivors: seq<nat>, workers: nat, n: nat, status: (nat, nat) -> int)
    requires CompletionOrder(survivors, Workers(workers), n, status)
    ensures KnownWorkers(survivors, workers)
  {
    forall i | 0 <= i < |survivors| ensures survivors[i] < workers {
      assert survivors[i] in survivors;
    }
  }

  lemma SurvivorCount(survivors: seq<nat>, workers: nat, n: nat, status: (nat, nat) -> int)
    requires CompletionOrder(survivors, Workers(workers), n, status)
    ensures |survivors| <= workers
    ensures |survivors| == workers <==> forall w: nat :: w < workers ==> Survives(n, status, w)
  {
    var alive := set w | w in survivors;
    DistinctSize(survivors);
    SubsetSize(alive, Workers(workers));
    assert alive == Workers(workers) <==> forall w: nat :: w in Workers(workers) ==> Survives(n, status, w);
  }

  // ---- One request per machine ----

  /** `_create_single_machine`. */
  method CreateSingleMachine(pool: Pool, x: MachineName, status: MachineName -> int) returns (ok: bool, ghost e: Event)
    modifies pool
    ensures ok <==> status(x) in {200, 201, 202}
    ensures e == MachinesPut(Put(x, []), false, status(x), pool.world)
    ensures pool.history == old(pool.history) + [e] && Evolves(old(pool.world), pool.world)
  {
    var answer := pool.PutMachines(Put(x, []), false, status(x));
    e := MachinesPut(Put(x, []), false, answer, pool.world);
    ok := Accepts(false, answer);
  }

  /** Only `pending` is still to be requested; `successful` holds what has landed so far. */
  ghost predicate SinglesSoFar(puts: seq<Event>, names: seq<MachineName>, pending: set<MachineName>,
                               successful: seq<MachineName>, status: MachineName -> int)
  {
    && pending <= SetOf(names) && OnlyPuts(puts, 1)
    && Targeted(puts) == SetOf(names) - pending && Landed(puts) == SetOf(successful)
    && Distinct(successful)
    && SetOf(successful) == set x | x in SetOf(names) - pending && Accepts(false, status(x))
  }

  lemma OneMoreSingle(puts: seq<Event>, names: seq<MachineName>, pending: set<MachineName>,
                      successful: seq<MachineName>, status: MachineName -> int, x: MachineName, e: Event)
    requires SinglesSoFar(puts, names, pending, successful, status) && x in pending
    requires e == MachinesPut(Put(x, []), false, status(x), e.seen)
    ensures SinglesSoFar(puts + [e], names, pending - {x},
                         if Accepts(false, status(x)) then successful + [x] else successful, status)
  {
    assert Machines(e.put) == [x] && NamesIn(e.put) == {x};
    PutsExtend(puts, e, 1);
    assert SetOf(names) - (pending - {x}) == SetOf(names) - pending + {x};
    SetOfConcat(successful, [x]);
    assert x !in SetOf(successful);
  }

  /** `_scale_machine_individually`, where `status(name)` answers the PUT of `name`; the futures complete
      in an arbitrary order. */
  method ScaleMachineIndividually(pool: Pool, names: seq<MachineName>, status: MachineName -> int)
    returns (successful: seq<MachineName>, ghost puts: seq<Event>)
    requires Distinct(names)
    modifies pool
    ensures pool.history == old(pool.history) + puts && Chronicle(old(pool.world), puts, pool.world)
    ensures Distinct(successful)
    ensures SetOf(successful) == set x | x in SetOf(names) && Accepts(false, status(x))
    ensures OnlyPuts(puts, 1) && |puts| == |names|
    ensures Targeted(puts) == SetOf(names) && Landed(puts) == SetOf(successful)
  {
    successful, puts := [], [];
    ghost var start, h := pool.world, pool.history;
    var pending := SetOf(names);
    DistinctSize(names);
    while pending != {}
      invariant SinglesSoFar(puts, names, pending, successful, status) && |puts| + |pending| == |names|
      invariant pool.history == h + puts && Chronicle(start, puts, pool.world)
      decreases |pending|
    {
      var x :| x in pending;
      ghost var before := pool.world;
      var ok;
      ghost var e;
      ok, e := CreateSingleMachine(pool, x, status);
      OneMoreSingle(puts, names, pending, successful, status, x, e);
      ChronicleNext(start, puts, before, e);
      Associate(h, puts, [e]);
      puts := puts + [e];
      if ok {
        successful := successful + [x];
      }
      pending := pending - {x};
    }
    assert SetOf(names) - {} == SetOf(names);
  }

  /** As many names as were asked for have landed only if all of them have. */
  lemma FullLandingIsAll(names: seq<MachineName>, successful: seq<MachineName>)
    requires Distinct(names) && Distinct(successful)
    requires forall x :: x in successful ==> x in names
    ensures |successful| <= |names|
    ensures |successful| == |names| ==> (set x | x in successful) == (set x | x in names)
  {
    DistinctSize(names);
    DistinctSize(successful);
    SubsetSize(set x | x in successful, set x | x in names);
  }
}
