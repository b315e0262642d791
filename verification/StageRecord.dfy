/** The record of the calls that a node-pool stage makes to its control plane. */
module StageRecord {
  import opened Common

  /** A call and its outcome: a look at the pool, a request for a size (with the configuration that
      was sent), a wait or another call that may raise, and a deletion. */
  datatype Call<+T> =
    | Seen(pool: Option<T>)
    | Sent(size: int, config: T, ok: bool)
    | Waited(ok: bool)
    | Deleted(ok: bool)

  predicate Succeeds<T>(c: Call<T>) {
    match c
    case Seen(pool) => pool.Some?
    case Sent(_, _, ok) => ok
    case Waited(ok) => ok
    case Deleted(ok) => ok
  }

  /** Every call succeeded. */
  predicate Clean<T>(calls: seq<Call<T>>) {
    calls != [] ==> Clean(calls[..|calls| - 1]) && Succeeds(calls[|calls| - 1])
  }

  /** Nothing was called after a call that failed. */
  predicate StopsAtFailure<T>(calls: seq<Call<T>>) {
    calls != [] ==> Clean(calls[..|calls| - 1])
  }

  /** The sizes that were requested, in order. */
  function Sizes<T>(calls: seq<Call<T>>): seq<int> {
    if calls == [] then []
    else
      var last := calls[|calls| - 1];
      Sizes(calls[..|calls| - 1]) + if last.Sent? then [last.size] else []
  }

  /** The number of deletions. */
  function Deletions<T>(calls: seq<Call<T>>): nat {
    if calls == [] then 0
    else Deletions(calls[..|calls| - 1]) + if calls[|calls| - 1].Deleted? then 1 else 0
  }

  lemma {:induction false} RecordConcat<T>(a: seq<Call<T>>, b: seq<Call<T>>)
    ensures Clean(a + b) <==> Clean(a) && Clean(b)
    ensures Sizes(a + b) == Sizes(a) + Sizes(b)
    ensures Deletions(a + b) == Deletions(a) + Deletions(b)
    ensures Clean(a) && StopsAtFailure(b) ==> StopsAtFailure(a + b)
  {
    if b == [] {
      assert a + b == a;
      if Clean(a) && a != [] {
        assert Clean(a[..|a| - 1]);
      }
    } else {
      var n := |b| - 1;
      assert (a + b)[..|a + b| - 1] == a + b[..n];
      RecordConcat(a, b[..n]);
      Associate(Sizes(a), Sizes(b[..n]), if b[n].Sent? then [b[n].size] else []);
    }
  }

  lemma RecordOne<T>(c: Call<T>)
    ensures Clean([c]) == Succeeds(c) && StopsAtFailure([c])
    ensures Sizes([c]) == if c.Sent? then [c.size] else []
    ensures Deletions([c]) == if c.Deleted? then 1 else 0
  {
    assert [c][..0] == [];
  }

  lemma {:induction false} CleanHolds<T>(calls: seq<Call<T>>, i: nat)
    requires Clean(calls) && i < |calls|
    ensures Succeeds(calls[i])
  {
    if i < |calls| - 1 {
      CleanHolds(calls[..|calls| - 1], i);
    }
  }

  /** What counts as a failure: a look that finds no pool, or a request, wait or deletion that is not ok. */
  lemma {:induction false} CleanIff<T>(calls: seq<Call<T>>)
    ensures Clean(calls) <==> forall c :: c in calls ==> if c.Seen? then c.pool != None else c.ok
    ensures StopsAtFailure(calls) <==>
      forall i :: 0 <= i < |calls| - 1 ==> if calls[i].Seen? then calls[i].pool != None else calls[i].ok
  {
    if calls != [] {
      var n := |calls| - 1;
      CleanIff(calls[..n]);
      assert forall c :: c in calls <==> c in calls[..n] || c == calls[n];
    }
  }

  /** One more call, after the calls before the stage and those of the stage so far. */
  lemma Push<T>(before: seq<Call<T>>, calls: seq<Call<T>>, c: Call<T>)
    ensures before + calls + [c] == before + (calls + [c])
    ensures Clean(calls + [c]) <==> Clean(calls) && Succeeds(c)
    ensures StopsAtFailure(calls + [c]) <==> Clean(calls)
    ensures Sizes(calls + [c]) == Sizes(calls) + if c.Sent? then [c.size] else []
    ensures Deletions(calls + [c]) == Deletions(calls) + if c.Deleted? then 1 else 0
  {
    assert (calls + [c])[..|calls|] == calls;
  }

  lemma RecordPair<T>(a: Call<T>, b: Call<T>)
    ensures Clean([a, b]) == (Succeeds(a) && Succeeds(b)) && StopsAtFailure([a, b]) == Succeeds(a)
    ensures Sizes([a, b]) == Sizes([a]) + Sizes([b]) && Deletions([a, b]) == Deletions([a]) + Deletions([b])
    ensures !a.Sent? ==> Sizes([a]) == []
    ensures !b.Sent? ==> Sizes([b]) == []
    ensures Deletions([a]) == (if a.Deleted? then 1 else 0) && Deletions([b]) == if b.Deleted? then 1 else 0
  {
    RecordOne(a);
    RecordOne(b);
    Push([], [a], b);
    assert [a] + [b] == [a, b];
  }

  /** What a creation does: it asks for `size` at most once, and for nothing else. */
  ghost predicate CreateStage<T>(calls: seq<Call<T>>, ok: bool, size: int) {
    && calls != [] && StopsAtFailure(calls) && (ok <==> Clean(calls))
    && Sizes(calls) <= [size] && (ok ==> Sizes(calls) == [size])
    && Deletions(calls) == 0
  }

  /** The calls around one request: a call that may raise before it, and one after it. */
  function OneRequest<T>(size: int, config: T, prepared: bool, sent: bool, done: bool): seq<Call<T>> {
    if !prepared then [Waited(false)]
    else if !sent then [Waited(true), Sent(size, config, false)]
    else [Waited(true), Sent(size, config, true), Waited(done)]
  }

  lemma OneRequestIsCreation<T>(size: int, config: T, prepared: bool, sent: bool, done: bool)
    ensures var calls := OneRequest(size, config, prepared, sent, done);
      && CreateStage(calls, prepared && sent && done, size)
      && (prepared ==> Sizes(calls) == [size])
  {
    var first: seq<Call<T>>, last: seq<Call<T>> := [Waited(prepared)], [Waited(done)];
    var request: seq<Call<T>> := [Sent(size, config, sent)];
    RecordOne(first[0]);
    RecordOne(request[0]);
    RecordOne(last[0]);
    RecordConcat(first, request);
    RecordConcat(first + request, last);
    assert OneRequest(size, config, true, false, done) == [Waited(true)] + [Sent(size, config, false)];
    assert OneRequest(size, config, true, true, done) == [Waited(true)] + [Sent(size, config, true)] + [Waited(done)];
    assert [] + [size] == [size] && [size] + [] == [size];
  }

  /** What scaling does: it looks at the pool first, then asks for the sizes on `path` in order until
      something fails, and succeeds if nothing does. There is no path if planning raises. */
  ghost predicate ScaleStage<T, E>(calls: seq<Call<T>>, ok: bool, path: Result<seq<int>, E>) {
    && calls != [] && calls[0].Seen? && StopsAtFailure(calls) && Deletions(calls) == 0
    && (ok <==> Clean(calls) && path.Ok?)
    && (path.Ok? ==> Sizes(calls) <= path.value)
    && (path.Err? ==> |calls| == 1)
    && (ok ==> Sizes(calls) == path.value)
  }

  /** What a deletion does: it looks at the pool, whether that succeeds or not, reads the metadata, and
      unless that raises deletes the pool. */
  ghost predicate DeleteStage<T>(calls: seq<Call<T>>, ok: bool) {
    && |calls| >= 2 && calls[0].Seen? && calls[1].Waited?
    && StopsAtFailure(calls[1..]) && (ok <==> Clean(calls[1..]))
    && Sizes(calls) == [] && Deletions(calls) == if calls[1].ok then 1 else 0
  }

  /** The calls of a deletion: a look at the pool, the metadata, the deletion, and perhaps a wait. */
  function OneDeletion<T>(pool: Option<T>, fetched: bool, deleted: bool, waited: Option<bool>): seq<Call<T>> {
    if !fetched then [Seen(pool), Waited(false)]
    else if !deleted then [Seen(pool), Waited(true), Deleted(false)]
    else if waited.None? then [Seen(pool), Waited(true), Deleted(true)]
    else [Seen(pool), Waited(true), Deleted(true), Waited(waited.value)]
  }

  lemma OneDeletionIsStage<T>(pool: Option<T>, fetched: bool, deleted: bool, waited: Option<bool>)
    ensures DeleteStage(OneDeletion(pool, fetched, deleted, waited),
      fetched && deleted && (waited.Some? ==> waited.value))
  {
    var a, b: Call<T>, c: Call<T> := Seen(pool), Waited(fetched), Deleted(deleted);
    var d: Call<T> := Waited(waited == Some(true));
    RecordOne(b);
    if !fetched {
      RecordPair(a, b);
      assert [a, b][1..] == [b];
    } else if !deleted || waited.None? {
      RecordPair(b, c);
      RecordConcat([a], [b, c]);
      RecordOne(a);
      assert [a] + [b, c] == [a, b, c] && [a, b, c][1..] == [b, c];
    } else {
      RecordPair(b, c);
      Push([], [b, c], d);
      assert [b, c] + [d] == [b, c, d];
      RecordConcat([a], [b, c, d]);
      RecordOne(a);
      assert [a] + [b, c, d] == [a, b, c, d] && [a, b, c, d][1..] == [b, c, d];
    }
  }

  ghost predicate Within(sizes: seq<int>, lo: int, hi: int) {
    forall i :: 0 <= i < |sizes| ==> lo <= sizes[i] <= hi
  }

  lemma PrefixWithin(sizes: seq<int>, path: seq<int>, lo: int, hi: int)
    requires sizes <= path && Within(path, lo, hi)
    ensures Within(sizes, lo, hi)
  {
  }

  /** The calls of one more step of a path. */
  lemma StepRecord<T>(before: seq<Call<T>>, done: seq<Call<T>>, more: seq<Call<T>>, steps: seq<int>, i: nat, ok: bool)
    requires i < |steps| && Clean(done) && Deletions(done) == 0 && Sizes(done) == steps[..i]
    requires StopsAtFailure(more) && (ok <==> Clean(more)) && Deletions(more) == 0
    requires Sizes(more) <= [steps[i]] && (ok ==> Sizes(more) == [steps[i]])
    ensures before + done + more == before + (done + more)
    ensures StopsAtFailure(done + more) && (ok <==> Clean(done + more)) && Deletions(done + more) == 0
    ensures Sizes(done + more) == Sizes(done) + Sizes(more)
    ensures Sizes(done + more) <= steps && (ok ==> Sizes(done + more) == steps[..i + 1])
  {
    Associate(before, done, more);
    RecordConcat(done, more);
    OneStep(Sizes(done), Sizes(more), steps, i, ok);
  }

  /** One more step of a path, which may fail before or after its size was requested. */
  lemma OneStep(done: seq<int>, more: seq<int>, steps: seq<int>, i: nat, ok: bool)
    requires i < |steps| && done == steps[..i] && more <= [steps[i]] && (ok ==> more == [steps[i]])
    ensures done + more <= steps && (ok ==> done + more == steps[..i + 1])
  {
  }

  // ---- Whole runs ----

  /** The table of results that a run fills in, stage by stage. */
  datatype Results = Results(create: bool, scaleUp: bool, scaleDown: bool, delete: bool)

  predicate Complete(r: Results) {
    r.create && r.scaleUp && r.scaleDown && r.delete
  }

  /** The stages of a run: what each called. */
  datatype Life<+T> = Life(create: seq<Call<T>>, up: seq<Call<T>>, down: seq<Call<T>>, delete: seq<Call<T>>)

  function AllCalls<T>(life: Life<T>): seq<Call<T>> {
    life.create + life.up + life.down + life.delete
  }

  lemma SizesOfLife<T>(life: Life<T>)
    ensures Sizes(AllCalls(life)) == Sizes(life.create) + Sizes(life.up) + Sizes(life.down) + Sizes(life.delete)
    ensures Deletions(AllCalls(life)) ==
      Deletions(life.create) + Deletions(life.up) + Deletions(life.down) + Deletions(life.delete)
  {
    RecordConcat(life.create, life.up);
    RecordConcat(life.create + life.up, life.down);
    RecordConcat(life.create + life.up + life.down, life.delete);
  }

  lemma CleanLife<T>(life: Life<T>)
    ensures Clean(AllCalls(life)) <==> Clean(life.create) && Clean(life.up) && Clean(life.down) && Clean(life.delete)
  {
    RecordConcat(life.create, life.up);
    RecordConcat(life.create + life.up, life.down);
    RecordConcat(life.create + life.up + life.down, life.delete);
  }

  lemma CallsAfter<T>(life: Life<T>, create: seq<Call<T>>)
    requires life.create == []
    ensures AllCalls(Life(create, life.up, life.down, life.delete)) == create + AllCalls(life)
  {
    assert [] + life.up == life.up;
    Associate(create, life.up, life.down);
    Associate(create, life.up + life.down, life.delete);
  }
}
