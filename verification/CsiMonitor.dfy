/** Watching disks being attached and detached, and collecting what was logged. */
module CsiMonitor {
  import opened Common

  /** One query of the cluster: how many items it found, and the clock (in microseconds) as it is
      read after the query by whoever logs it. */
  datatype Poll = Poll(count: int, at: int)

  datatype Comparison = Gte | Lte

  datatype Label = Label(text: string)

  datatype Threshold = Threshold(target: int, name: Label)

  predicate Satisfies(count: int, target: int, comparison: Comparison) {
    if comparison.Gte? then count >= target else count <= target
  }

  // ---- Thresholds ----

  /** `calculate_percentiles`. */
  function CalculatePercentiles(disks: int): (int, int, int, int) {
    (disks / 2, disks * 9 / 10, disks * 99 / 100, disks)
  }

  function AttachThresholds(disks: int): seq<Threshold> {
    var (p50, p90, p99, p100) := CalculatePercentiles(disks);
    [Threshold(p50, Label("p50")), Threshold(p90, Label("p90")),
     Threshold(p99, Label("p99")), Threshold(p100, Label("p100"))]
  }

  function DetachThresholds(disks: int): seq<Threshold> {
    var (p50, p90, p99, p100) := CalculatePercentiles(disks);
    [Threshold(p100 - p50, Label("p50")), Threshold(p100 - p90, Label("p90")),
     Threshold(p100 - p99, Label("p99")), Threshold(0, Label("p100"))]
  }

  /** The percentiles are rounded down. */
  lemma PercentilesAre(disks: int)
    ensures var (p50, p90, p99, p100) := CalculatePercentiles(disks);
      && 2 * p50 <= disks < 2 * (p50 + 1)
      && 10 * p90 <= 9 * disks < 10 * (p90 + 1)
      && 100 * p99 <= 99 * disks < 100 * (p99 + 1)
      && p100 == disks
  {
  }

  /** As many attached as a percentile asks for, and as many still there as it leaves. */
  lemma ThresholdsAre(disks: int)
    ensures var (p50, p90, p99, p100) := CalculatePercentiles(disks);
      var a, d := AttachThresholds(disks), DetachThresholds(disks);
      && |a| == 4 && a[0].target == p50 && a[1].target == p90 && a[2].target == p99 && a[3].target == disks
      && |d| == 4 && d[0].target == disks - p50 && d[1].target == disks - p90 && d[2].target == disks - p99
      && d[3].target == 0
      && forall i :: 0 <= i < 4 ==> a[i].name == d[i].name == Label(["p50", "p90", "p99", "p100"][i])
  {
  }

  /** Meeting a later threshold means meeting the earlier ones. */
  ghost predicate Graded(thresholds: seq<Threshold>, comparison: Comparison) {
    forall i, j :: 0 <= i < j < |thresholds| ==> Satisfies(thresholds[j].target, thresholds[i].target, comparison)
  }

  /** The thresholds are graded for every number of disks; they cease to be below minus one. */
  lemma ThresholdsAreGraded(disks: int)
    ensures Graded(AttachThresholds(disks), Gte) <==> disks >= -1
    ensures Graded(DetachThresholds(disks), Lte) <==> disks >= -1
  {
    var a, d := AttachThresholds(disks), DetachThresholds(disks);
    if disks < -1 {
      assert !Satisfies(a[1].target, a[0].target, Gte);
      assert !Satisfies(d[1].target, d[0].target, Lte);
    }
  }

  // ---- Watching ----

  /** The first poll at or after `from` that satisfies the target, or the end of the polls. */
  function NextHit(polls: seq<Poll>, from: nat, target: int, comparison: Comparison): (k: nat)
    requires from <= |polls|
    ensures from <= k <= |polls|
    decreases |polls| - from
  {
    if from == |polls| || Satisfies(polls[from].count, target, comparison) then from
    else NextHit(polls, from + 1, target, comparison)
  }

  lemma {:induction false} NextHitIsFirst(polls: seq<Poll>, from: nat, target: int, comparison: Comparison)
    requires from <= |polls|
    ensures var k := NextHit(polls, from, target, comparison);
      && (forall i :: from <= i < k ==> !Satisfies(polls[i].count, target, comparison))
      && (k < |polls| ==> Satisfies(polls[k].count, target, comparison))
    decreases |polls| - from
  {
    if from < |polls| && !Satisfies(polls[from].count, target, comparison) {
      NextHitIsFirst(polls, from + 1, target, comparison);
    }
  }

  /** `wait_for_condition`, over the polls made so far: the poll at which it returns, if it has. */
  method WaitForCondition(polls: seq<Poll>, from: nat, target: int, comparison: Comparison) returns (k: nat)
    requires from <= |polls|
    ensures k == NextHit(polls, from, target, comparison)
    ensures from <= k <= |polls|
    ensures forall i :: from <= i < k ==>
      if comparison == Gte then polls[i].count < target else polls[i].count > target
    ensures k < |polls| ==> if comparison == Gte then polls[k].count >= target else polls[k].count <= target
  {
    k := from;
    while k < |polls|
      invariant from <= k <= |polls|
      invariant NextHit(polls, from, target, comparison) == NextHit(polls, k, target, comparison)
      invariant forall i :: from <= i < k ==>
        if comparison == Gte then polls[i].count < target else polls[i].count > target
    {
      if Satisfies(polls[k].count, target, comparison) {
        return;
      }
      k := k + 1;
    }
  }

  /** The polls at which the thresholds are logged one after the other, each wait starting with a
      poll of its own; it stops short when the polls run out. */
  function Hits(polls: seq<Poll>, from: nat, thresholds: seq<Threshold>, comparison: Comparison): (hits: seq<nat>)
    requires from <= |polls|
    ensures |hits| <= |thresholds|
    ensures forall j :: 0 <= j < |hits| ==> from <= hits[j] < |polls|
    decreases thresholds
  {
    if thresholds == [] then []
    else
      var k := NextHit(polls, from, thresholds[0].target, comparison);
      if k == |polls| then [] else [k] + Hits(polls, k + 1, thresholds[1..], comparison)
  }

  const SECOND := 1_000_000

  function Duration(at: int, start: int): nat
    requires start <= at
  {
    (at - start) / SECOND
  }

  datatype Entry = Entry(description: Label, seconds: nat)

  /** The lines a shared file holds, each appended by one write. */
  class LogFile {
    var entries: seq<Entry>

    constructor ()
      ensures entries == []
    {
      entries := [];
    }

    /** `log_duration`, when the clock reads `now`: a description with a colon is refused before
        anything is written. */
    method LogDuration(description: Label, start: int, now: int) returns (raised: bool)
      requires start <= now
      modifies this
      ensures raised <==> ':' in description.text
      ensures entries == if raised then old(entries) else old(entries) + [Entry(description, Duration(now, start))]
      ensures !raised ==>
        var e := entries[|entries| - 1];
        e.description == description && e.seconds * 1_000_000 <= now - start < (e.seconds + 1) * 1_000_000
    {
      var seconds := Duration(now, start);
      raised := ':' in description.text;
      if !raised {
        entries := entries + [Entry(description, seconds)];
      }
    }
  }

  function Describe(description: Label, t: Threshold): Label {
    Label(description.text + " " + t.name.text)
  }

  /** `after` extends `before` by one entry for each threshold logged at `hits`. */
  ghost predicate Logged(before: seq<Entry>, after: seq<Entry>, description: Label, polls: seq<Poll>,
                         thresholds: seq<Threshold>, hits: seq<nat>, start: int) {
    && |hits| <= |thresholds| && |after| == |before| + |hits| && before <= after
    && forall j :: 0 <= j < |hits| ==>
      hits[j] < |polls| && start <= polls[hits[j]].at &&
      after[|before| + j] == Entry(Describe(description, thresholds[j]), Duration(polls[hits[j]].at, start))
  }

  /** What an entry says: the monitor and the threshold, and the whole seconds since the start. */
  lemma LoggedMeans(before: seq<Entry>, after: seq<Entry>, description: Label, polls: seq<Poll>,
                    thresholds: seq<Threshold>, hits: seq<nat>, start: int, j: nat)
    requires Logged(before, after, description, polls, thresholds, hits, start) && j < |hits|
    ensures after[|before| + j].description.text == description.text + " " + thresholds[j].name.text
    ensures var seconds := after[|before| + j].seconds;
      seconds * 1_000_000 <= polls[hits[j]].at - start < (seconds + 1) * 1_000_000
  {
  }

  lemma LoggedExtends(before: seq<Entry>, after: seq<Entry>, description: Label, polls: seq<Poll>,
                      thresholds: seq<Threshold>, hits: seq<nat>, start: int, k: nat)
    requires Logged(before, after, description, polls, thresholds, hits, start)
    requires |hits| < |thresholds| && k < |polls| && start <= polls[k].at
    ensures var e := Entry(Describe(description, thresholds[|hits|]), Duration(polls[k].at, start));
      Logged(before, after + [e], description, polls, thresholds, hits + [k], start)
  {
  }

  lemma LoggedNothing(entries: seq<Entry>, description: Label, polls: seq<Poll>, thresholds: seq<Threshold>, start: int)
    ensures Logged(entries, entries, description, polls, thresholds, [], start)
  {
  }

  /** Each threshold is met by the first poll that satisfies it after the poll that met the one
      before; the first threshold without such a poll is where the log stops. */
  lemma {:induction false} HitsInTurn(polls: seq<Poll>, from: nat, thresholds: seq<Threshold>, comparison: Comparison,
                                      j: nat)
    requires from <= |polls| && j < |thresholds| && j <= |Hits(polls, from, thresholds, comparison)|
    ensures
      var hits := Hits(polls, from, thresholds, comparison);
      var k := NextHit(polls, if j == 0 then from else hits[j - 1] + 1, thresholds[j].target, comparison);
      if k == |polls| then |hits| == j else j < |hits| && hits[j] == k
    decreases thresholds
  {
    if j > 0 {
      HitsInTurn(polls, NextHit(polls, from, thresholds[0].target, comparison) + 1, thresholds[1..], comparison, j - 1);
    }
  }

  lemma PrefixExtends(logged: seq<nat>, all: seq<nat>, k: nat)
    requires logged <= all && |logged| < |all| && all[|logged|] == k
    ensures logged + [k] <= all
  {
  }

  /** `monitor_thresholds`, over the polls made so far. */
  method MonitorThresholds(description: Label, polls: seq<Poll>, thresholds: seq<Threshold>, comparison: Comparison,
                           start: int, file: LogFile)
    returns (raised: bool, logged: seq<nat>)
    requires forall k :: 0 <= k < |polls| ==> start <= polls[k].at
    modifies file
    ensures logged <= Hits(polls, 0, thresholds, comparison)
    ensures !raised ==> logged == Hits(polls, 0, thresholds, comparison)
    ensures raised ==> |logged| < |thresholds| && ':' in Describe(description, thresholds[|logged|]).text
    ensures Logged(old(file.entries), file.entries, description, polls, thresholds, logged, start)
  {
    logged := [];
    var from: nat := 0;
    ghost var all, before := Hits(polls, 0, thresholds, comparison), file.entries;
    LoggedNothing(before, description, polls, thresholds, start);
    for j := 0 to |thresholds|
      invariant |logged| == j && logged <= all
      invariant from == if j == 0 then 0 else logged[j - 1] + 1
      invariant Logged(before, file.entries, description, polls, thresholds, logged, start)
    {
      var k := WaitForCondition(polls, from, thresholds[j].target, comparison);
      HitsInTurn(polls, 0, thresholds, comparison, j);
      if k == |polls| {
        return false, logged;
      }
      LoggedExtends(before, file.entries, description, polls, thresholds, logged, start, k);
      raised := file.LogDuration(Describe(description, thresholds[j]), start, polls[k].at);
      if raised {
        return true, logged;
      }
      PrefixExtends(logged, all, k);
      logged, from := logged + [k], k + 1;
    }
    raised := false;
  }

  // ---- Sequential and independent watchers ----

  /** The counts move in one direction only. */
  ghost predicate Monotone(polls: seq<Poll>, comparison: Comparison) {
    forall i, j :: 0 <= i < j < |polls| ==> Satisfies(polls[j].count, polls[i].count, comparison)
  }

  /** A watcher that looks only for threshold `j` reports the poll `FirstHit`. */
  function FirstHit(polls: seq<Poll>, t: Threshold, comparison: Comparison): nat {
    NextHit(polls, 0, t.target, comparison)
  }

  lemma LaterHit(polls: seq<Poll>, from: nat, t: Threshold, comparison: Comparison)
    requires Monotone(polls, comparison) && from <= |polls|
    ensures NextHit(polls, from, t.target, comparison) == Max(from, FirstHit(polls, t, comparison))
  {
    var k, f := NextHit(polls, from, t.target, comparison), FirstHit(polls, t, comparison);
    NextHitIsFirst(polls, from, t.target, comparison);
    NextHitIsFirst(polls, 0, t.target, comparison);
    if f < from && from < |polls| {
      assert Satisfies(polls[from].count, polls[f].count, comparison);
    }
  }

  lemma FirstHitsAreOrdered(polls: seq<Poll>, s: Threshold, t: Threshold, comparison: Comparison)
    requires Satisfies(t.target, s.target, comparison)
    ensures FirstHit(polls, s, comparison) <= FirstHit(polls, t, comparison)
  {
    var k := FirstHit(polls, t, comparison);
    NextHitIsFirst(polls, 0, s.target, comparison);
    NextHitIsFirst(polls, 0, t.target, comparison);
    if k < |polls| {
      assert Satisfies(polls[k].count, s.target, comparison);
    }
  }

  /** On monotone observations the `j`-th threshold is logged no earlier than an independent watcher
      would and at most `j` polls later. */
  lemma SequentialTracksIndependent(polls: seq<Poll>, thresholds: seq<Threshold>, comparison: Comparison, j: nat)
    requires Monotone(polls, comparison) && Graded(thresholds, comparison)
    requires j < |Hits(polls, 0, thresholds, comparison)|
    ensures var f := FirstHit(polls, thresholds[j], comparison);
      f <= Hits(polls, 0, thresholds, comparison)[j] <= f + j
  {
    TracksFrom(polls, 0, thresholds, comparison, j, 0);
  }

  /** The same for a watcher that starts at most `lag` polls after the first hit of its first
      threshold. */
  lemma {:induction false} TracksFrom(polls: seq<Poll>, from: nat, thresholds: seq<Threshold>, comparison: Comparison,
                                      j: nat, lag: nat)
    requires Monotone(polls, comparison) && Graded(thresholds, comparison)
    requires from <= |polls| && j < |Hits(polls, from, thresholds, comparison)|
    requires from <= FirstHit(polls, thresholds[0], comparison) + lag
    ensures var f := FirstHit(polls, thresholds[j], comparison);
      f <= Hits(polls, from, thresholds, comparison)[j] <= f + lag + j
    decreases thresholds
  {
    LaterHit(polls, from, thresholds[0], comparison);
    if j > 0 {
      var k := NextHit(polls, from, thresholds[0].target, comparison);
      FirstHitsAreOrdered(polls, thresholds[0], thresholds[1], comparison);
      TracksFrom(polls, k + 1, thresholds[1..], comparison, j - 1, lag + 1);
    }
  }

  /** There are polls enough for every threshold, `lag` polls behind schedule. */
  ghost predicate Enough(polls: seq<Poll>, thresholds: seq<Threshold>, comparison: Comparison, lag: nat) {
    forall j :: 0 <= j < |thresholds| ==> FirstHit(polls, thresholds[j], comparison) + lag + j < |polls|
  }

  lemma GradedTail(thresholds: seq<Threshold>, comparison: Comparison)
    requires thresholds != [] && Graded(thresholds, comparison)
    ensures Graded(thresholds[1..], comparison)
    ensures |thresholds| > 1 ==> Satisfies(thresholds[1].target, thresholds[0].target, comparison)
  {
  }

  lemma EnoughForTheRest(polls: seq<Poll>, thresholds: seq<Threshold>, comparison: Comparison, lag: nat)
    requires thresholds != [] && Enough(polls, thresholds, comparison, lag)
    ensures FirstHit(polls, thresholds[0], comparison) + lag < |polls|
    ensures Enough(polls, thresholds[1..], comparison, lag + 1)
  {
    assert FirstHit(polls, thresholds[0], comparison) + lag + 0 < |polls|;
    forall j | 0 <= j < |thresholds[1..]|
      ensures FirstHit(polls, thresholds[1..][j], comparison) + (lag + 1) + j < |polls|
    {
      assert FirstHit(polls, thresholds[j + 1], comparison) + lag + (j + 1) < |polls|;
    }
  }

  /** ... and it is logged once there are that many polls. */
  lemma EveryThresholdIsLogged(polls: seq<Poll>, thresholds: seq<Threshold>, comparison: Comparison)
    requires Monotone(polls, comparison) && Graded(thresholds, comparison)
    requires Enough(polls, thresholds, comparison, 0)
    ensures |Hits(polls, 0, thresholds, comparison)| == |thresholds|
  {
    LoggedFrom(polls, 0, thresholds, comparison, 0);
  }

  lemma {:induction false} LoggedFrom(polls: seq<Poll>, from: nat, thresholds: seq<Threshold>, comparison: Comparison,
                                      lag: nat)
    requires Monotone(polls, comparison) && Graded(thresholds, comparison) && from <= |polls|
    requires thresholds != [] ==> from <= FirstHit(polls, thresholds[0], comparison) + lag
    requires Enough(polls, thresholds, comparison, lag)
    ensures |Hits(polls, from, thresholds, comparison)| == |thresholds|
    decreases thresholds
  {
    if thresholds != [] {
      LaterHit(polls, from, thresholds[0], comparison);
      EnoughForTheRest(polls, thresholds, comparison, lag);
      var k := NextHit(polls, from, thresholds[0].target, comparison);
      GradedTail(thresholds, comparison);
      if |thresholds| > 1 {
        FirstHitsAreOrdered(polls, thresholds[0], thresholds[1], comparison);
      }
      LoggedFrom(polls, k + 1, thresholds[1..], comparison, lag + 1);
    }
  }

  /** Whatever is observed, thresholds are logged at strictly increasing polls. */
  lemma {:induction false} HitsIncrease(polls: seq<Poll>, from: nat, thresholds: seq<Threshold>,
                                        comparison: Comparison, i: nat, j: nat)
    requires from <= |polls| && i < j < |Hits(polls, from, thresholds, comparison)|
    ensures Hits(polls, from, thresholds, comparison)[i] < Hits(polls, from, thresholds, comparison)[j]
    decreases thresholds
  {
    var k := NextHit(polls, from, thresholds[0].target, comparison);
    if i > 0 {
      HitsIncrease(polls, k + 1, thresholds[1..], comparison, i - 1, j - 1);
    }
  }

  /** With a clock that never goes back, logged durations never decrease. */
  lemma DurationsNeverDecrease(polls: seq<Poll>, thresholds: seq<Threshold>, comparison: Comparison, start: int,
                               i: nat, j: nat)
    requires forall k, l :: 0 <= k < l < |polls| ==> polls[k].at <= polls[l].at
    requires forall k :: 0 <= k < |polls| ==> start <= polls[k].at
    requires i < j < |Hits(polls, 0, thresholds, comparison)|
    ensures var hits := Hits(polls, 0, thresholds, comparison);
      Duration(polls[hits[i]].at, start) <= Duration(polls[hits[j]].at, start)
  {
    HitsIncrease(polls, 0, thresholds, comparison, i, j);
  }
}
