/** The readiness watcher: poll the Ready nodes of a pool until every percentile target is
    met, the deadline passes, or ARM reports that the missing machines will never come. */
module Readiness {
  import opened Common
  import opened ArmPool
  import opened MachineNames
  import opened FailureReport

  const POLL_INTERVAL := 2 * SECOND
  const CHECK_INTERVAL := 30 * SECOND

  const PERCENTILES: seq<nat> := [50, 70, 90, 99, 100]
  const PERCENTS: set<nat> := {50, 70, 90, 99, 100}

  /** The Ready-node count at which percentile `p` of the expected machines counts as reached. */
  function Target(p: nat, baseline: nat, expected: nat): nat {
    Max(baseline + 1, CeilDiv(p * (baseline + expected), 100))
  }

  /** The `targets` table of the watcher. */
  function Targets(baseline: nat, expected: nat): (targets: map<nat, nat>)
    ensures targets.Keys == PERCENTS
  {
    map p | p in PERCENTS :: Target(p, baseline, expected)
  }

  /** `t` is the least number above the baseline that is at least `p` percent of all nodes. */
  ghost predicate LeastTarget(t: nat, p: nat, baseline: nat, expected: nat) {
    && t > baseline && 100 * t >= p * (baseline + expected)
    && forall u: nat :: u > baseline && 100 * u >= p * (baseline + expected) ==> t <= u
  }

  lemma TargetIsLeast(p: nat, baseline: nat, expected: nat)
    ensures var t := Target(p, baseline, expected);
      && t > baseline && 100 * t >= p * (baseline + expected)
      && forall u: nat :: u > baseline && 100 * u >= p * (baseline + expected) ==> t <= u
  {
    var q := CeilDiv(p * (baseline + expected), 100);
    assert 100 * (q - 1) < p * (baseline + expected) <= 100 * q;
  }

  /** Every percentile of an envelope is reported against its target. */
  ghost predicate TargetsFit(env: Envelope, baseline: nat, expected: nat) {
    && env.Keys == {50, 70, 90, 99, 100}
    && forall p :: p in env ==> LeastTarget(env[p].target, p, baseline, expected)
  }

  /** Targets grow with the percentile, lie above the nodes that were there before and within
      those that can exist, and the last one asks for all of them. */
  lemma TargetsAreOrdered(p: nat, q: nat, baseline: nat, expected: nat)
    requires p in PERCENTS && q in PERCENTS && p <= q && expected > 0
    ensures baseline < Target(p, baseline, expected) <= Target(q, baseline, expected) <= baseline + expected
    ensures Target(100, baseline, expected) == baseline + expected
  {
    var total := baseline + expected;
    Scale(total, p, q);
    Scale(total, q, 100);
    CeilDivMonotone(p * total, q * total, 100);
    CeilDivMonotone(q * total, 100 * total, 100);
  }

  datatype Entry = Entry(target: nat, elapsed: Option<int>, success: bool)

  type Envelope = map<nat, Entry>

  function EmptyEnvelope(): Envelope {
    map p | p in PERCENTS :: Entry(0, None, false)
  }

  /** `_build_readiness_envelope`. */
  function BuildEnvelope(targets: map<nat, nat>, times: map<nat, int>): Envelope
    requires targets.Keys == PERCENTS
  {
    map p | p in PERCENTS ::
      Entry(targets[p], if p in times then Some(times[p]) else None, p in times)
  }

  // ---- The history of a watch ----

  /** One turn of the watcher's loop. All times count from the start of the watch.
      `guardAt` is the clock reading of the loop guard, `begunAt` the one that decides whether to
      list the machines, `answeredAt` the one after the turn's queries, `elapsed` the one recorded
      for percentiles met by this turn, `decidedAt` the one that sets the sleep, and `resumedAt` the
      clock after the sleep. `queries` are the requests of the turn as the pool's history has them,
      `ready` the Ready nodes they counted, and `reported` the failed machines they gave away; `naps`
      is the sleep, if any, as the history has it. */
  datatype Poll = Poll(guardAt: int, begunAt: int, checked: bool, queries: seq<Event>, answeredAt: int,
                       ready: nat, reported: seq<MachineName>, elapsed: int,
                       decidedAt: int, slept: int, resumedAt: int, naps: seq<Event>)

  /** The time recorded for a target, computed as the loop does: keep the first time seen. */
  function FirstHit(polls: seq<Poll>, target: nat): Option<int> {
    if polls == [] then None
    else
      var last := polls[|polls| - 1];
      var before := FirstHit(polls[..|polls| - 1], target);
      if before.Some? then before else if last.ready >= target then Some(last.elapsed) else None
  }

  /** Poll `i` is the first to see at least `target` Ready nodes. */
  ghost predicate FirstReach(polls: seq<Poll>, target: nat, i: int) {
    && 0 <= i < |polls|
    && polls[i].ready >= target
    && forall j :: 0 <= j < i ==> polls[j].ready < target
  }

  lemma {:induction false} NoHit(polls: seq<Poll>, target: nat)
    requires forall i :: 0 <= i < |polls| ==> polls[i].ready < target
    ensures FirstHit(polls, target) == None
  {
    if polls != [] {
      NoHit(polls[..|polls| - 1], target);
    }
  }

  /** The loop's bookkeeping finds the first poll that meets the target ... */
  lemma {:induction false} FirstHitIsFirst(polls: seq<Poll>, target: nat, i: int)
    requires FirstReach(polls, target, i)
    ensures FirstHit(polls, target) == Some(polls[i].elapsed)
  {
    var init := polls[..|polls| - 1];
    if i < |init| {
      FirstHitIsFirst(init, target, i);
    } else {
      NoHit(init, target);
    }
  }

  /** ... and nothing else: a recorded time is that of a first poll. */
  lemma {:induction false} HitIsReached(polls: seq<Poll>, target: nat) returns (i: int)
    requires FirstHit(polls, target).Some?
    ensures FirstReach(polls, target, i) && FirstHit(polls, target) == Some(polls[i].elapsed)
  {
    var init := polls[..|polls| - 1];
    if FirstHit(init, target).Some? {
      i := HitIsReached(init, target);
    } else {
      i := |init|;
      forall j | 0 <= j < i ensures polls[j].ready < target {
        MissedSoFar(init, target, j);
      }
    }
  }

  lemma {:induction false} MissedSoFar(polls: seq<Poll>, target: nat, j: nat)
    requires FirstHit(polls, target) == None && j < |polls|
    ensures polls[j].ready < target
  {
    if j < |polls| - 1 {
      MissedSoFar(polls[..|polls| - 1], target, j);
    }
  }

  /** An envelope that reports, for every percentile, the first poll that met its target. */
  ghost predicate Summarises(env: Envelope, polls: seq<Poll>, targets: map<nat, nat>) {
    && env.Keys == targets.Keys == PERCENTS
    && forall p :: p in PERCENTS ==>
      var hit := FirstHit(polls, targets[p]);
      env[p] == Entry(targets[p], hit, hit.Some?)
  }

  ghost predicate OrderedTimes(polls: seq<Poll>) {
    forall i, j :: 0 <= i < j < |polls| ==> polls[i].elapsed <= polls[j].elapsed
  }

  /** Met percentiles form a prefix of 50, 70, 90, 99, 100 and their times never decrease,
      whatever the ready counts do. */
  lemma PercentilesFormPrefix(env: Envelope, polls: seq<Poll>, baseline: nat, expected: nat, p: nat, q: nat)
    requires Summarises(env, polls, Targets(baseline, expected)) && OrderedTimes(polls) && expected > 0
    requires p in PERCENTS && q in PERCENTS && p <= q && env[q].success
    ensures env[p].success && env[p].elapsed.value <= env[q].elapsed.value
  {
    TargetsAreOrdered(p, q, baseline, expected);
    HitsAreOrdered(polls, Target(p, baseline, expected), Target(q, baseline, expected));
  }

  lemma {:induction false} HitsAreOrdered(polls: seq<Poll>, s: nat, t: nat)
    requires OrderedTimes(polls) && s <= t && FirstHit(polls, t).Some?
    ensures FirstHit(polls, s).Some? && FirstHit(polls, s).value <= FirstHit(polls, t).value
    ensures FirstHit(polls, t).value <= polls[|polls| - 1].elapsed
  {
    var n := |polls| - 1;
    var init := polls[..n];
    assert OrderedTimes(init);
    if FirstHit(init, t).Some? {
      HitsAreOrdered(init, s, t);
    } else if FirstHit(init, s).Some? {
      HitsAreOrdered(init, s, s);
    }
  }

  /** Success at P100 is success everywhere. */
  lemma P100ImpliesAll(env: Envelope, polls: seq<Poll>, baseline: nat, expected: nat)
    requires Summarises(env, polls, Targets(baseline, expected)) && OrderedTimes(polls) && expected > 0
    requires env[100].success
    ensures forall p :: p in PERCENTS ==> env[p].success
  {
    forall p | p in PERCENTS
      ensures env[p].success
    {
      PercentilesFormPrefix(env, polls, baseline, expected, p, 100);
    }
  }

  /** Nodes that were Ready before the scale-out never meet a target by themselves. */
  lemma BaselineNeverCounts(env: Envelope, polls: seq<Poll>, baseline: nat, expected: nat)
    requires Summarises(env, polls, Targets(baseline, expected)) && expected > 0
    requires forall i :: 0 <= i < |polls| ==> polls[i].ready <= baseline
    ensures forall p :: p in PERCENTS ==> !env[p].success && env[p].elapsed == None
  {
    forall p | p in PERCENTS
      ensures !env[p].success && env[p].elapsed == None
    {
      TargetsAreOrdered(p, p, baseline, expected);
      NoHit(polls, Target(p, baseline, expected));
    }
  }

  /** When no node joins, a percentile is met exactly if its target lies within the nodes that were
      Ready anyway. So it never is if the baseline counted them; but if the snapshot failed and the
      baseline is 0, all percentiles are met as soon as there are as many old nodes as new machines. */
  lemma OldNodesCountIff(env: Envelope, polls: seq<Poll>, baseline: nat, expected: nat, present: nat, p: nat)
    requires Summarises(env, polls, Targets(baseline, expected)) && expected > 0 && p in PERCENTS
    requires polls != [] && forall i :: 0 <= i < |polls| ==> polls[i].ready == present
    ensures env[p].success <==> Target(p, baseline, expected) <= present
    ensures present <= baseline ==> !env[p].success
    ensures baseline == 0 ==> (env[100].success <==> expected <= present)
  {
    forall q | q in PERCENTS
      ensures env[q].success <==> Target(q, baseline, expected) <= present
    {
      TargetsAreOrdered(q, 100, baseline, expected);
      if Target(q, baseline, expected) <= present {
        FirstHitIsFirst(polls, Target(q, baseline, expected), 0);
      } else {
        NoHit(polls, Target(q, baseline, expected));
      }
    }
    TargetsAreOrdered(p, 100, baseline, expected);
  }

  // ---- Cadence ----

  ghost predicate Timed(p: Poll, timeout: int) {
    && 0 <= p.guardAt < timeout
    && p.guardAt <= p.begunAt <= p.answeredAt <= p.elapsed <= p.decidedAt
    && 0 <= p.slept <= POLL_INTERVAL
    && p.decidedAt + p.slept <= p.resumedAt
  }

  /** A turn that does not list machines starts a full poll interval after the turn before. */
  ghost predicate Follows(p: Poll, q: Poll) {
    && p.resumedAt <= q.guardAt
    && (!q.checked ==> p.slept == POLL_INTERVAL)
  }

  /** How a watch is paced. `watching` says whether machine listings are enabled. */
  ghost predicate Cadence(polls: seq<Poll>, timeout: int, watching: bool) {
    && (forall i :: 0 <= i < |polls| ==> Timed(polls[i], timeout) && (polls[i].checked ==> watching))
    && (forall i :: 0 < i < |polls| ==> Follows(polls[i - 1], polls[i]))
    && (forall i, j :: 0 <= i < j < |polls| && polls[i].checked && polls[j].checked ==>
      polls[i].answeredAt + CHECK_INTERVAL <= polls[j].begunAt)
    && (polls != [] ==> polls[0].checked == watching)
  }

  lemma {:induction false} CadenceOrdersTimes(polls: seq<Poll>, timeout: int, watching: bool)
    requires Cadence(polls, timeout, watching)
    ensures OrderedTimes(polls)
  {
    if |polls| > 1 {
      var n := |polls| - 1;
      var init := polls[..n];
      assert forall i :: 0 < i < n ==> Follows(init[i - 1], init[i]) by {
        forall i | 0 < i < n ensures Follows(init[i - 1], init[i]) {
          assert Follows(polls[i - 1], polls[i]);
        }
      }
      CadenceOrdersTimes(init, timeout, watching);
      assert Follows(polls[n - 1], polls[n]);
      assert Timed(polls[n - 1], timeout) && Timed(polls[n], timeout);
    }
  }

  /** The number of machine listings among the first `n` turns. */
  function Checks(polls: seq<Poll>, n: nat): nat
    requires n <= |polls|
  {
    if n == 0 then 0 else Checks(polls, n - 1) + if polls[n - 1].checked then 1 else 0
  }

  /** The last of `k` listings started at least `k - 1` intervals into the watch. */
  lemma {:induction false} ListingsAreSpaced(polls: seq<Poll>, timeout: int, watching: bool, n: nat) returns (i: nat)
    requires Cadence(polls, timeout, watching) && n <= |polls| && Checks(polls, n) > 0
    ensures i < n && polls[i].checked && polls[i].begunAt >= CHECK_INTERVAL * (Checks(polls, n) - 1)
  {
    i := n - 1;
    assert Timed(polls[i], timeout);
    if Checks(polls, i) > 0 {
      var j := ListingsAreSpaced(polls, timeout, watching, i);
      assert Timed(polls[j], timeout);
      if !polls[i].checked {
        i := j;
      } else {
        assert polls[j].answeredAt + CHECK_INTERVAL <= polls[i].begunAt;
      }
    }
  }

  /** Listings are bounded by the timeout over their interval. The loop reads the clock once for
      its guard and again before listing, so one last listing may start after the deadline. */
  lemma ListingsAreBounded(polls: seq<Poll>, timeout: int, watching: bool)
    requires Cadence(polls, timeout, watching) && polls != []
    ensures var last, limit := polls[|polls| - 1], CeilDiv(timeout, CHECK_INTERVAL);
      Checks(polls, |polls|) <= limit + if last.checked && last.begunAt >= CHECK_INTERVAL * limit then 1 else 0
  {
    var n := |polls| - 1;
    assert Timed(polls[n], timeout);
    if Checks(polls, n) > 0 {
      var i := ListingsAreSpaced(polls, timeout, watching, n);
      GuardsFollow(polls, timeout, watching, i, n);
      assert Timed(polls[i], timeout);
      assert polls[n].checked ==> polls[i].begunAt + CHECK_INTERVAL <= polls[n].begunAt;
      ListingArithmetic(polls[i].begunAt, polls[n].begunAt, Checks(polls, n), timeout, polls[n].checked);
    }
  }

  lemma ListingArithmetic(previous: int, begunAt: int, k: nat, timeout: int, checked: bool)
    requires CHECK_INTERVAL * (k - 1) <= previous < timeout
    requires checked ==> previous + CHECK_INTERVAL <= begunAt
    ensures var limit := CeilDiv(timeout, CHECK_INTERVAL);
      k + (if checked then 1 else 0) <= limit + if checked && begunAt >= CHECK_INTERVAL * limit then 1 else 0
  {
  }

  lemma {:induction false} GuardsFollow(polls: seq<Poll>, timeout: int, watching: bool, i: nat, j: nat)
    requires Cadence(polls, timeout, watching) && i < j < |polls|
    ensures polls[i].begunAt <= polls[j].guardAt
  {
    assert Timed(polls[j - 1], timeout) && Follows(polls[j - 1], polls[j]);
    if i < j - 1 {
      GuardsFollow(polls, timeout, watching, i, j - 1);
    }
  }

  /** Turns that list nothing are bounded by the timeout over the poll interval, so the whole
      watch makes a bounded number of turns. */
  lemma TurnsAreBounded(polls: seq<Poll>, timeout: int, watching: bool)
    requires Cadence(polls, timeout, watching) && polls != []
    ensures |polls| - Checks(polls, |polls|) <= CeilDiv(timeout, POLL_INTERVAL)
  {
    TurnsAreSpaced(polls, timeout, watching, |polls|);
    assert Timed(polls[|polls| - 1], timeout);
  }

  lemma {:induction false} TurnsAreSpaced(polls: seq<Poll>, timeout: int, watching: bool, n: nat)
    requires Cadence(polls, timeout, watching) && 0 < n <= |polls|
    ensures polls[n - 1].guardAt >= POLL_INTERVAL * (n - 1 - Checks(polls, n))
  {
    assert Timed(polls[n - 1], timeout);
    if n > 1 {
      TurnsAreSpaced(polls, timeout, watching, n - 1);
      assert Timed(polls[n - 2], timeout) && Follows(polls[n - 2], polls[n - 1]);
    }
  }

  // ---- The requests behind the turns ----

  ghost predicate IsCount(e: Event, ready: nat) {
    e.NodesCounted? && e.count == ready
  }

  /** `gets` are one listing that gives away `reported`. */
  ghost predicate Reports(gets: seq<Event>, url: string, names: set<MachineName>, reported: seq<MachineName>) {
    OneListing(gets, url) && reported == ReportFor(ReportOf(gets, names))
  }

  /** All requests were answered between two clock readings. */
  ghost predicate Within(events: seq<Event>, lo: int, hi: int) {
    events != [] ==>
      Within(events[..|events| - 1], lo, hi) && lo <= events[|events| - 1].seen.clock <= hi
  }

  lemma {:induction false} WithinHolds(events: seq<Event>, lo: int, hi: int, e: Event)
    requires Within(events, lo, hi) && e in events
    ensures lo <= e.seen.clock <= hi
  {
    if e in events[..|events| - 1] {
      WithinHolds(events[..|events| - 1], lo, hi, e);
    }
  }

  lemma {:induction false} ChronicleWithin(u: World, events: seq<Event>, w: World, lo: int, hi: int)
    requires Chronicle(u, events, w) && lo <= u.clock && w.clock <= hi
    ensures Within(events, lo, hi)
  {
    if events != [] {
      var n := |events| - 1;
      ChronicleEvolves(u, events[..n], events[n].seen);
      ChronicleWithin(u, events[..n], events[n].seen, lo, hi);
    }
  }

  /** `q` is a node count and, if machines are checked, one listing before or after it. */
  ghost predicate Answers(q: seq<Event>, checked: bool, url: string, names: set<MachineName>, ready: nat,
                          reported: seq<MachineName>) {
    q != [] &&
    var n := |q| - 1;
    if checked then
      || (IsCount(q[0], ready) && Reports(q[1..], url, names, reported))
      || (IsCount(q[n], ready) && Reports(q[..n], url, names, reported))
    else
      n == 0 && IsCount(q[0], ready) && reported == []
  }

  /** A sleep of `d`, or none. */
  ghost predicate IsNap(naps: seq<Event>, d: int) {
    if d > 0 then |naps| == 1 && naps[0].Slept? && naps[0].d == d else naps == []
  }

  /** The turn's queries and sleep are what it says they are, and fall between its clock readings. */
  ghost predicate Asked(p: Poll, start: int, url: string, names: set<MachineName>) {
    && IsNap(p.naps, p.slept) && Within(p.naps, start + p.decidedAt + p.slept, start + p.resumedAt)
    && Answers(p.queries, p.checked, url, names, p.ready, p.reported)
    && Within(p.queries, start + p.begunAt, start + p.answeredAt)
  }

  /** Every turn asked the pool, and none but perhaps the last learnt of failures that end the watch. */
  ghost predicate Genuine(polls: seq<Poll>, start: int, url: string, names: set<MachineName>) {
    polls != [] ==>
      var n := |polls| - 1;
      && Genuine(polls[..n], start, url, names) && Asked(polls[n], start, url, names)
      && (n > 0 ==> polls[n - 1].reported == [])
  }

  lemma {:induction false} AskedAt(polls: seq<Poll>, start: int, url: string, names: set<MachineName>, i: nat)
    requires Genuine(polls, start, url, names) && i < |polls|
    ensures Asked(polls[i], start, url, names)
    ensures i < |polls| - 1 ==> polls[i].reported == []
  {
    if i < |polls| - 1 {
      AskedAt(polls[..|polls| - 1], start, url, names, i);
    }
  }

  /** The last turn has not learnt of failures either. */
  ghost predicate Quiet(polls: seq<Poll>) {
    polls != [] ==> polls[|polls| - 1].reported == []
  }

  /** What a turn leaves in the history: its queries and its sleep. */
  ghost function EventsOf(p: Poll): seq<Event> {
    p.queries + p.naps
  }

  /** What all turns leave there, in order. */
  ghost function Trace(polls: seq<Poll>): seq<Event> {
    if polls == [] then [] else Trace(polls[..|polls| - 1]) + EventsOf(polls[|polls| - 1])
  }

  lemma TraceExtends(polls: seq<Poll>, p: Poll)
    ensures Trace(polls + [p]) == Trace(polls) + EventsOf(p)
  {
    assert (polls + [p])[..|polls|] == polls;
  }

  lemma TraceGoesOn(h: seq<Event>, w: World, polls: seq<Poll>, before: World, p: Poll, after: World)
    requires Chronicle(w, Trace(polls), before) && Chronicle(before, EventsOf(p), after)
    ensures Trace(polls + [p]) == Trace(polls) + EventsOf(p)
    ensures h + Trace(polls) + EventsOf(p) == h + Trace(polls + [p])
    ensures Chronicle(w, Trace(polls + [p]), after)
  {
    TraceExtends(polls, p);
    ChronicleConcat(w, Trace(polls), before, EventsOf(p), after);
    Associate(h, Trace(polls), EventsOf(p));
  }

  lemma {:induction false} TraceHolds(polls: seq<Poll>, i: nat, k: nat)
    requires i < |polls| && k < |polls[i].queries|
    ensures polls[i].queries[k] in Trace(polls)
  {
    if i < |polls| - 1 {
      TraceHolds(polls[..|polls| - 1], i, k);
    }
  }

  /** A percentile is recorded only if the pool has answered with that many Ready nodes. */
  lemma HitIsObserved(polls: seq<Poll>, target: nat, start: int, url: string, names: set<MachineName>)
    returns (e: Event)
    requires Genuine(polls, start, url, names) && FirstHit(polls, target).Some?
    ensures e in Trace(polls) && e.NodesCounted? && e.count >= target
  {
    var i := HitIsReached(polls, target);
    AskedAt(polls, start, url, names, i);
    var k := CountOf(polls[i], start, url, names);
    TraceHolds(polls, i, k);
    e := polls[i].queries[k];
  }

  lemma CountOf(p: Poll, start: int, url: string, names: set<MachineName>) returns (k: nat)
    requires Asked(p, start, url, names)
    ensures k < |p.queries| && IsCount(p.queries[k], p.ready)
  {
    k := if IsCount(p.queries[0], p.ready) then 0 else |p.queries| - 1;
  }

  /** A query falls between the clock readings of its turn, and only turns that check request pages. */
  lemma QueryOf(polls: seq<Poll>, start: int, url: string, names: set<MachineName>, i: nat, e: Event)
    requires Genuine(polls, start, url, names) && i < |polls| && e in polls[i].queries
    ensures start + polls[i].begunAt <= e.seen.clock <= start + polls[i].answeredAt
    ensures e.PageRead? ==> polls[i].checked
  {
    AskedAt(polls, start, url, names, i);
    var p := polls[i];
    QueryIsTimed(p, start, url, names, e);
    if e.PageRead? {
      PagesMeanCheck(p.queries, p.checked, url, names, p.ready, p.reported, e);
    }
  }

  lemma QueryIsTimed(p: Poll, start: int, url: string, names: set<MachineName>, e: Event)
    requires Asked(p, start, url, names) && e in p.queries
    ensures Answers(p.queries, p.checked, url, names, p.ready, p.reported)
    ensures start + p.begunAt <= e.seen.clock <= start + p.answeredAt
  {
    WithinHolds(p.queries, start + p.begunAt, start + p.answeredAt, e);
  }

  lemma PagesMeanCheck(q: seq<Event>, checked: bool, url: string, names: set<MachineName>, ready: nat,
                       reported: seq<MachineName>, e: Event)
    requires Answers(q, checked, url, names, ready, reported) && e in q && e.PageRead?
    ensures checked
  {
  }

  /** Two node counts of successive turns are two seconds apart unless the later turn lists the
      machines: the loop never spins. */
  lemma NodeCountsAreSpaced(polls: seq<Poll>, timeout: int, watching: bool, start: int, url: string,
                            names: set<MachineName>, i: nat, e: Event, f: Event)
    requires Cadence(polls, timeout, watching) && Genuine(polls, start, url, names)
    requires i + 1 < |polls| && e in polls[i].queries && f in polls[i + 1].queries
    ensures e.seen.clock <= f.seen.clock
    ensures polls[i + 1].checked || e.seen.clock + POLL_INTERVAL <= f.seen.clock
  {
    QueryOf(polls, start, url, names, i, e);
    QueryOf(polls, start, url, names, i + 1, f);
    assert Follows(polls[i + 1 - 1], polls[i + 1]);
    assert Timed(polls[i], timeout) && Timed(polls[i + 1], timeout);
  }

  /** Page requests of different listings are thirty seconds apart. */
  lemma ListingRequestsAreSpaced(polls: seq<Poll>, timeout: int, watching: bool, start: int, url: string,
                                 names: set<MachineName>, i: nat, j: nat, e: Event, f: Event)
    requires Cadence(polls, timeout, watching) && Genuine(polls, start, url, names)
    requires i < j < |polls| && e in polls[i].queries && f in polls[j].queries && e.PageRead? && f.PageRead?
    ensures e.seen.clock + CHECK_INTERVAL <= f.seen.clock
  {
    QueryOf(polls, start, url, names, i, e);
    QueryOf(polls, start, url, names, j, f);
  }

  /** The page requests among some events. */
  ghost function Pages(events: seq<Event>): nat {
    if events == [] then 0
    else Pages(events[..|events| - 1]) + if events[|events| - 1].PageRead? then 1 else 0
  }

  lemma {:induction false} PagesConcat(a: seq<Event>, b: seq<Event>)
    ensures Pages(a + b) == Pages(a) + Pages(b)
  {
    if b == [] {
      assert a + b == a;
    } else {
      var n := |b| - 1;
      assert (a + b)[..|a + b| - 1] == a + b[..n];
      PagesConcat(a, b[..n]);
    }
  }

  lemma {:induction false} LinkedArePages(gets: seq<Event>, url: string)
    requires Linked(gets, url)
    ensures Pages(gets) == |gets| && NodeCounts(gets) == 0
  {
    if |gets| > 1 {
      LinkedArePages(gets[..|gets| - 1], url);
    }
  }

  /** The node counts among some events. */
  ghost function NodeCounts(events: seq<Event>): nat {
    if events == [] then 0
    else NodeCounts(events[..|events| - 1]) + if events[|events| - 1].NodesCounted? then 1 else 0
  }

  lemma {:induction false} NodeCountsConcat(a: seq<Event>, b: seq<Event>)
    ensures NodeCounts(a + b) == NodeCounts(a) + NodeCounts(b)
  {
    if b == [] {
      assert a + b == a;
    } else {
      var n := |b| - 1;
      assert (a + b)[..|a + b| - 1] == a + b[..n];
      NodeCountsConcat(a, b[..n]);
    }
  }

  lemma Singles(e: Event)
    ensures Pages([e]) == (if e.PageRead? then 1 else 0) && NodeCounts([e]) == if e.NodesCounted? then 1 else 0
  {
    assert [e][..0] == [];
  }

  /** A turn requests between one page and `MAX_PAGES` if it lists the machines, and none otherwise;
      it counts the nodes once. */
  lemma PagesOfTurn(p: Poll, start: int, url: string, names: set<MachineName>)
    requires Asked(p, start, url, names)
    ensures if p.checked then 1 <= Pages(EventsOf(p)) <= MAX_PAGES else Pages(EventsOf(p)) == 0
    ensures NodeCounts(EventsOf(p)) == 1
  {
    CountsAround(p.queries, p.naps);
    PagesOfNap(p.naps, p.slept);
    PagesOfAnswers(p.queries, p.checked, url, names, p.ready, p.reported);
  }

  lemma PagesOfNap(naps: seq<Event>, d: int)
    requires IsNap(naps, d)
    ensures Pages(naps) == 0 && NodeCounts(naps) == 0
  {
    if naps != [] {
      assert naps == [naps[0]];
      Singles(naps[0]);
    }
  }

  lemma PagesOfAnswers(q: seq<Event>, checked: bool, url: string, names: set<MachineName>, ready: nat,
                       reported: seq<MachineName>)
    requires Answers(q, checked, url, names, ready, reported)
    ensures NodeCounts(q) == 1 && if checked then 1 <= Pages(q) <= MAX_PAGES else Pages(q) == 0
  {
    var n := |q| - 1;
    Singles(q[0]);
    Singles(q[n]);
    if !checked {
      assert q == [q[0]];
    } else if IsCount(q[0], ready) && Reports(q[1..], url, names, reported) {
      CountsAround([q[0]], q[1..]);
      assert q == [q[0]] + q[1..];
      LinkedArePages(q[1..], url);
    } else {
      CountsAround(q[..n], [q[n]]);
      assert q == q[..n] + [q[n]];
      LinkedArePages(q[..n], url);
    }
  }

  lemma CountsAround(a: seq<Event>, b: seq<Event>)
    ensures Pages(a + b) == Pages(a) + Pages(b) && NodeCounts(a + b) == NodeCounts(a) + NodeCounts(b)
  {
    PagesConcat(a, b);
    NodeCountsConcat(a, b);
  }

  /** Every turn counts the nodes once, and only the turns that check request pages. */
  lemma {:induction false} RequestsOfTurns(polls: seq<Poll>, start: int, url: string, names: set<MachineName>)
    requires Genuine(polls, start, url, names)
    ensures NodeCounts(Trace(polls)) == |polls|
    ensures Checks(polls, |polls|) <= Pages(Trace(polls)) <= MAX_PAGES * Checks(polls, |polls|)
  {
    if polls != [] {
      var n := |polls| - 1;
      RequestsOfTurns(polls[..n], start, url, names);
      ChecksOfPrefix(polls, n, n);
      PagesOfTurn(polls[n], start, url, names);
      CountsAround(Trace(polls[..n]), EventsOf(polls[n]));
    }
  }

  lemma {:induction false} ChecksOfPrefix(polls: seq<Poll>, n: nat, k: nat)
    requires k <= n <= |polls|
    ensures Checks(polls[..n], k) == Checks(polls, k)
  {
    if k > 0 {
      ChecksOfPrefix(polls, n, k - 1);
    }
  }

  /** A watch makes a bounded number of requests. */
  lemma RequestsAreBounded(polls: seq<Poll>, timeout: int, watching: bool, start: int, url: string,
                           names: set<MachineName>)
    requires Cadence(polls, timeout, watching) && Genuine(polls, start, url, names) && polls != []
    ensures var listings := CeilDiv(timeout, CHECK_INTERVAL) + 1;
      && Pages(Trace(polls)) <= MAX_PAGES * listings
      && NodeCounts(Trace(polls)) <= CeilDiv(timeout, POLL_INTERVAL) + listings
  {
    RequestsOfTurns(polls, start, url, names);
    ListingsAreBounded(polls, timeout, watching);
    TurnsAreBounded(polls, timeout, watching);
  }

  // ---- The watcher ----

  datatype Outcome =
    | Observed(envelope: Envelope)
    | ProvisioningFailed(failed: seq<MachineName>, envelope: Envelope)

  /** The state of the loop between turns: what was recorded is the first-hit summary so far. */
  ghost predicate Recorded(times: map<nat, int>, polls: seq<Poll>, targets: map<nat, nat>) {
    && times.Keys <= PERCENTS == targets.Keys
    && forall p :: p in PERCENTS ==>
      FirstHit(polls, targets[p]) == if p in times then Some(times[p]) else None
  }

  lemma RecordedSummarises(times: map<nat, int>, polls: seq<Poll>, targets: map<nat, nat>)
    requires Recorded(times, polls, targets)
    ensures Summarises(BuildEnvelope(targets, times), polls, targets)
  {
    assert BuildEnvelope(targets, times).Keys == PERCENTS;
  }

  /** `times'` keeps `times` and adds `elapsed` for exactly the percentiles newly met by `ready`. */
  ghost predicate Hits(times: map<nat, int>, times': map<nat, int>, ready: nat, elapsed: int,
                       targets: map<nat, nat>) {
    && targets.Keys == PERCENTS
    && (forall p :: p in times ==> p in times' && times'[p] == times[p])
    && (forall p :: p in PERCENTS && p !in times ==>
      (p in times' <==> ready >= targets[p]) && (p in times' ==> times'[p] == elapsed))
  }

  lemma RecordedExtends(times: map<nat, int>, times': map<nat, int>, polls: seq<Poll>, poll: Poll,
                        targets: map<nat, nat>)
    requires Recorded(times, polls, targets) && times'.Keys <= PERCENTS
    requires Hits(times, times', poll.ready, poll.elapsed, targets)
    ensures Recorded(times', polls + [poll], targets)
  {
    assert (polls + [poll])[..|polls|] == polls;
  }

  lemma AllRecorded(times: map<nat, int>)
    requires times.Keys <= PERCENTS && |times| >= |PERCENTILES|
    ensures times.Keys == PERCENTS
  {
    assert |PERCENTS| == |PERCENTILES|;
    if p :| p in PERCENTS && p !in times {
      SubsetSize(times.Keys, PERCENTS - {p});
    }
  }

  /** The next ListMachines is due an interval after every listing made so far. */
  ghost predicate CheckSchedule(nextCheck: Option<int>, polls: seq<Poll>) {
    && (polls == [] && nextCheck.Some? ==> nextCheck.value == 0)
    && forall i :: 0 <= i < |polls| && polls[i].checked ==>
      nextCheck.Some? && polls[i].answeredAt + CHECK_INTERVAL <= nextCheck.value
  }

  function NextWake(now: int, timeout: int, nextCheck: Option<int>): int {
    var wake := Min(now + POLL_INTERVAL, timeout);
    if nextCheck.Some? then Min(wake, nextCheck.value) else wake
  }

  /** The last turn slept until the next wake-up. */
  ghost predicate Rested(polls: seq<Poll>, timeout: int, nextCheck: Option<int>) {
    polls != [] ==>
      var last := polls[|polls| - 1];
      var wake := NextWake(last.decidedAt, timeout, nextCheck);
      last.slept == Max(0, wake - last.decidedAt) && wake <= last.resumedAt
  }

  /** The sleep decided at `now` ends at the first of the next poll, the deadline and the next listing. */
  lemma NextWakeIsFirst(now: int, timeout: int, nextCheck: Option<int>)
    ensures var wake := NextWake(now, timeout, nextCheck);
      && wake <= now + 2_000_000 && wake <= timeout && (nextCheck.Some? ==> wake <= nextCheck.value)
      && (wake == now + 2_000_000 || wake == timeout || nextCheck == Some(wake))
  {
  }

  /** A listing is due at once, and then thirty seconds after the last one was answered. */
  lemma {:induction false} DueIs(polls: seq<Poll>, i: nat)
    requires i <= |polls| && forall j :: i <= j < |polls| ==> !polls[j].checked
    requires i > 0 ==> polls[i - 1].checked
    ensures Due(polls, false) == None
    ensures Due(polls, true) == Some(if i == 0 then 0 else polls[i - 1].answeredAt + 30_000_000)
  {
    if i < |polls| {
      DueIs(polls[..|polls| - 1], i);
    }
  }

  /** When the next listing is due after some turns. */
  function Due(polls: seq<Poll>, watching: bool): Option<int> {
    if !watching then None
    else if polls == [] then Some(0)
    else
      var last := polls[|polls| - 1];
      if last.checked then Some(last.answeredAt + CHECK_INTERVAL) else Due(polls[..|polls| - 1], watching)
  }

  /** A turn lists the machines if and only if that is due, and follows a sleep until the next wake-up. */
  ghost predicate Punctual(polls: seq<Poll>, timeout: int, watching: bool) {
    polls != [] ==>
      var init, last := polls[..|polls| - 1], polls[|polls| - 1];
      var due := Due(init, watching);
      && Punctual(init, timeout, watching) && Rested(init, timeout, due)
      && last.checked == (due.Some? && last.begunAt >= due.value)
  }

  lemma CadenceExtends(polls: seq<Poll>, p: Poll, timeout: int, watching: bool, nextCheck: Option<int>)
    requires Cadence(polls, timeout, watching) && CheckSchedule(nextCheck, polls)
    requires nextCheck.Some? <==> watching
    requires Rested(polls, timeout, nextCheck)
    requires Timed(p, timeout) && p.checked == (nextCheck.Some? && p.begunAt >= nextCheck.value)
    requires polls != [] ==> polls[|polls| - 1].resumedAt <= p.guardAt
    ensures Cadence(polls + [p], timeout, watching)
  {
    var ps := polls + [p];
    forall i | 0 < i < |ps|
      ensures Follows(ps[i - 1], ps[i])
    {
      if i < |polls| {
        assert Follows(polls[i - 1], polls[i]);
      }
    }
  }

  /** Record the percentiles that `ready` meets for the first time. */
  method RecordHits(times: map<nat, int>, ready: nat, elapsed: int, targets: map<nat, nat>)
    returns (r: map<nat, int>)
    requires times.Keys <= PERCENTS == targets.Keys
    ensures r.Keys <= PERCENTS
    ensures Hits(times, r, ready, elapsed, targets)
  {
    r := times;
    for k := 0 to |PERCENTILES|
      invariant r.Keys <= PERCENTS
      invariant forall p :: p in times ==> p in r && r[p] == times[p]
      invariant forall i :: k <= i < |PERCENTILES| && PERCENTILES[i] !in times ==> PERCENTILES[i] !in r
      invariant forall i :: 0 <= i < k && PERCENTILES[i] !in times ==>
        (PERCENTILES[i] in r <==> ready >= targets[PERCENTILES[i]]) &&
        (PERCENTILES[i] in r ==> r[PERCENTILES[i]] == elapsed)
    {
      var p := PERCENTILES[k];
      if p !in r && ready >= targets[p] {
        r := r[p := elapsed];
      }
    }
    assert forall p :: p in PERCENTS ==> p in PERCENTILES;
  }

  /** The queries of one turn. When a listing is due, two workers query the nodes and the machines
      at once; a listing that fails is left to the next cadence. */
  method Observe(pool: Pool, url: string, names: set<MachineName>, start: int, nextCheck: Option<int>)
    returns (begunAt: int, ready: nat, failed: seq<MachineName>, upcoming: Option<int>, elapsed: int, ghost p: Poll)
    requires nextCheck.Some? ==> names != {}
    modifies pool
    ensures pool.history == old(pool.history) + p.queries && Chronicle(old(pool.world), p.queries, pool.world)
    ensures Asked(p, start, url, names)
    ensures p.begunAt == begunAt && p.ready == ready && p.reported == failed && p.elapsed == elapsed
    ensures old(pool.world).clock <= start + begunAt && start + elapsed == pool.world.clock
    ensures begunAt <= p.answeredAt <= elapsed
    ensures p.checked == (nextCheck.Some? && begunAt >= nextCheck.value)
    ensures if p.checked then upcoming == Some(p.answeredAt + CHECK_INTERVAL) else upcoming == nextCheck
    ensures failed != [] ==>
      p.checked && AllTerminal(pool.world, names) && failed == ReportFor(FailedNames(pool.world, names))
  {
    upcoming := nextCheck;
    ghost var w := pool.world;
    var t := pool.Now();
    begunAt := t - start;
    ghost var asked := pool.world;
    var check := nextCheck.Some? && begunAt >= nextCheck.value;
    ghost var queries;
    ready, failed, queries := Query(pool, url, names, check);
    ghost var observed := pool.world;
    t := pool.Now();
    ghost var answeredAt := t - start;
    if check {
      upcoming := Some(t - start + CHECK_INTERVAL);
      t := pool.Now();
    }
    elapsed := t - start;
    ChronicleWithin(asked, queries, observed, start + begunAt, start + answeredAt);
    ChronicleAround(w, asked, queries, observed, pool.world);
    if failed != [] {
      TerminalPersists(observed, pool.world, names);
    }
    p := Poll(begunAt, begunAt, check, queries, answeredAt, ready, failed, elapsed, elapsed, 0, elapsed, []);
  }

  lemma ChronicleAround(u: World, v: World, queries: seq<Event>, w: World, x: World)
    requires Evolves(u, v) && Chronicle(v, queries, w) && Evolves(w, x)
    ensures Chronicle(u, queries, x)
  {
    ChronicleConcat(u, [], v, queries, w);
    assert [] + queries == queries;
    ChronicleWait(u, queries, w, x);
  }

  method Query(pool: Pool, url: string, names: set<MachineName>, check: bool)
    returns (ready: nat, failed: seq<MachineName>, ghost queries: seq<Event>)
    requires check ==> names != {}
    modifies pool
    ensures pool.history == old(pool.history) + queries && Chronicle(old(pool.world), queries, pool.world)
    ensures Answers(queries, check, url, names, ready, failed)
    ensures failed != [] ==>
      check && AllTerminal(pool.world, names) && failed == ReportFor(FailedNames(pool.world, names))
  {
    ghost var w := pool.world;
    if check {
      ready, failed, queries := ListAndCount(pool, url, names);
    } else {
      ready := pool.ReadyNodeCount();
      failed, queries := [], [NodesCounted(ready, pool.world)];
      ChronicleOne(w, NodesCounted(ready, pool.world), pool.world);
    }
  }

  method ListAndCount(pool: Pool, url: string, names: set<MachineName>)
    returns (ready: nat, failed: seq<MachineName>, ghost queries: seq<Event>)
    requires names != {}
    modifies pool
    ensures pool.history == old(pool.history) + queries && Chronicle(old(pool.world), queries, pool.world)
    ensures Answers(queries, true, url, names, ready, failed)
    ensures failed != [] ==> AllTerminal(pool.world, names) && failed == ReportFor(FailedNames(pool.world, names))
  {
    ghost var w, h, gets := pool.world, pool.history, [];
    var nodesFirst := *;
    if nodesFirst {
      ready := pool.ReadyNodeCount();
      ghost var count, counted := NodesCounted(ready, pool.world), pool.world;
      failed, gets := ListForFailures(pool, url, names);
      CountThenList(h, w, count, counted, gets, pool.world, url, names, ready, failed);
      queries := [count] + gets;
    } else {
      failed, gets := ListForFailures(pool, url, names);
      ghost var listed := pool.world;
      ready := pool.ReadyNodeCount();
      ghost var count := NodesCounted(ready, pool.world);
      ListThenCount(h, w, gets, listed, count, url, names, ready, failed);
      queries := gets + [count];
      if failed != [] {
        TerminalPersists(listed, pool.world, names);
      }
    }
  }

  /** The listing of a turn; one that fails reports nothing. */
  method ListForFailures(pool: Pool, url: string, names: set<MachineName>)
    returns (failed: seq<MachineName>, ghost gets: seq<Event>)
    requires names != {}
    modifies pool
    ensures pool.history == old(pool.history) + gets && Chronicle(old(pool.world), gets, pool.world)
    ensures Reports(gets, url, names, failed)
    ensures failed != [] ==> AllTerminal(pool.world, names) && failed == ReportFor(FailedNames(pool.world, names))
  {
    var listing;
    listing, gets := TerminalProvisioningFailures(pool, url, names);
    failed := if listing.Ok? then listing.value else [];
    ReportIsEmptyIff({});
  }

  lemma CountThenList(h: seq<Event>, u: World, count: Event, v: World, gets: seq<Event>, w: World, url: string,
                      names: set<MachineName>, ready: nat, failed: seq<MachineName>)
    requires count == NodesCounted(ready, v) && Honest(count) && Evolves(u, v) && Chronicle(v, gets, w)
    requires Reports(gets, url, names, failed)
    ensures h + [count] + gets == h + ([count] + gets) && Chronicle(u, [count] + gets, w)
    ensures Answers([count] + gets, true, url, names, ready, failed)
  {
    Associate(h, [count], gets);
    ChronicleOne(u, count, v);
    ChronicleConcat(u, [count], v, gets, w);
    assert ([count] + gets)[1..] == gets;
  }

  lemma ListThenCount(h: seq<Event>, u: World, gets: seq<Event>, v: World, count: Event, url: string,
                      names: set<MachineName>, ready: nat, failed: seq<MachineName>)
    requires count == NodesCounted(ready, count.seen) && Honest(count)
    requires Chronicle(u, gets, v) && Evolves(v, count.seen) && Reports(gets, url, names, failed)
    ensures h + gets + [count] == h + (gets + [count]) && Chronicle(u, gets + [count], count.seen)
    ensures Answers(gets + [count], true, url, names, ready, failed)
  {
    Associate(h, gets, [count]);
    ChronicleNext(u, gets, v, count);
    assert (gets + [count])[..|gets|] == gets;
  }

  /** Sleep until the next node poll, the next machine listing or the deadline. */
  method Rest(pool: Pool, start: int, timeout: int, nextCheck: Option<int>)
    returns (decidedAt: int, slept: int, ghost naps: seq<Event>)
    modifies pool
    ensures pool.history == old(pool.history) + naps && Chronicle(old(pool.world), naps, pool.world)
    ensures IsNap(naps, slept) && Within(naps, start + decidedAt + slept, pool.world.clock)
    ensures old(pool.world).clock <= start + decidedAt && start + decidedAt + slept <= pool.world.clock
    ensures var wake := NextWake(decidedAt, timeout, nextCheck);
      slept == Max(0, wake - decidedAt) && start + wake <= pool.world.clock
    ensures slept > 0 ==>
      && slept <= 2_000_000 && decidedAt + slept <= timeout
      && (nextCheck.Some? ==> decidedAt + slept <= nextCheck.value)
      && (slept == 2_000_000 || decidedAt + slept == timeout || nextCheck == Some(decidedAt + slept))
    ensures slept <= 0 ==> slept == 0 && (decidedAt >= timeout || (nextCheck.Some? && decidedAt >= nextCheck.value))
  {
    var t := pool.Now();
    decidedAt := t - start;
    slept := Max(0, NextWake(decidedAt, timeout, nextCheck) - decidedAt);
    naps := [];
    if slept > 0 {
      pool.Sleep(slept);
      naps := [Slept(slept, pool.world)];
      ChronicleOne(old(pool.world), naps[0], pool.world);
      assert naps[..0] == [];
    }
  }

  /** The last turn is over `now` microseconds after the start. */
  ghost predicate Resumed(polls: seq<Poll>, now: int) {
    polls != [] ==> polls[|polls| - 1].resumedAt <= now
  }

  /** The loop invariant of the watcher as far as pace and records go. */
  ghost predicate Watch(times: map<nat, int>, polls: seq<Poll>, nextCheck: Option<int>,
                        timeout: int, targets: map<nat, nat>) {
    && Recorded(times, polls, targets)
    && Cadence(polls, timeout, nextCheck.Some?)
    && CheckSchedule(nextCheck, polls)
    && (|times| < |PERCENTILES| ==> Rested(polls, timeout, nextCheck))
  }

  ghost predicate AllMet(env: Envelope) {
    forall p :: p in PERCENTS ==> p in env && env[p].success
  }

  /** The rest of a turn in which nothing failed: record what was met and sleep. */
  method Settle(pool: Pool, start: int, timeout: int, targets: map<nat, nat>, times: map<nat, int>,
                ready: nat, elapsed: int, upcoming: Option<int>)
    returns (met: map<nat, int>, decidedAt: int, slept: int, ghost naps: seq<Event>)
    requires times.Keys <= PERCENTS == targets.Keys && start + elapsed == pool.world.clock
    modifies pool
    ensures pool.history == old(pool.history) + naps && Chronicle(old(pool.world), naps, pool.world)
    ensures IsNap(naps, slept) && Within(naps, start + decidedAt + slept, pool.world.clock)
    ensures met.Keys <= PERCENTS && Hits(times, met, ready, elapsed, targets)
    ensures elapsed <= decidedAt && 0 <= slept <= POLL_INTERVAL && start + decidedAt + slept <= pool.world.clock
    ensures if |met| < |PERCENTILES| then
        var wake := NextWake(decidedAt, timeout, upcoming);
        slept == Max(0, wake - decidedAt) && start + wake <= pool.world.clock
      else slept == 0
  {
    met := RecordHits(times, ready, elapsed, targets);
    decidedAt, slept, naps := elapsed, 0, [];
    if |met| < |PERCENTILES| {
      decidedAt, slept, naps := Rest(pool, start, timeout, upcoming);
    }
  }

  /** Some percentile is still to be met. */
  ghost predicate Unmet(polls: seq<Poll>, targets: map<nat, nat>)
    requires targets.Keys == PERCENTS
  {
    exists p :: p in PERCENTS && FirstHit(polls, targets[p]) == None
  }

  lemma SomeUnmet(times: map<nat, int>, polls: seq<Poll>, targets: map<nat, nat>)
    requires Recorded(times, polls, targets) && |times| < |PERCENTILES|
    ensures Unmet(polls, targets)
  {
    assert |PERCENTS| == |PERCENTILES|;
    if PERCENTS <= times.Keys {
      SubsetSize(PERCENTS, times.Keys);
    }
  }

  /** What a watch that started at `start` and took the turns `polls` may report in the end. */
  ghost predicate Watched(r: Outcome, polls: seq<Poll>, start: int, url: string, timeout: int,
                          targets: map<nat, nat>, names: set<MachineName>, end: World)
    requires targets.Keys == PERCENTS
  {
    && Cadence(polls, timeout, names != {}) && Genuine(polls, start, url, names)
    && Punctual(polls, timeout, names != {})
    && (polls != [] ==> start + polls[|polls| - 1].resumedAt <= end.clock)
    && (polls != [] ==> Unmet(polls[..|polls| - 1], targets))
    && match r
      case Observed(envelope) =>
        && Quiet(polls) && Summarises(envelope, polls, targets)
        && (AllMet(envelope) || start + timeout <= end.clock)
      case ProvisioningFailed(failed, envelope) =>
        polls != [] &&
        var n := |polls| - 1;
        && polls[n].reported == failed && failed != []
        && Summarises(envelope, polls[..n], targets)
        && AllTerminal(end, names) && failed == ReportFor(FailedNames(end, names))
  }

  /** The loop goes on: its invariant. */
  ghost predicate Going(times: map<nat, int>, polls: seq<Poll>, nextCheck: Option<int>, start: int, url: string,
                        timeout: int, targets: map<nat, nat>, names: set<MachineName>)
  {
    && nextCheck == Due(polls, names != {}) && Punctual(polls, timeout, names != {})
    && (nextCheck.Some? <==> names != {})
    && Watch(times, polls, nextCheck, timeout, targets)
    && Genuine(polls, start, url, names) && Quiet(polls)
    && (polls != [] ==> Unmet(polls[..|polls| - 1], targets))
  }

  /** A turn begins: the poll it makes fits the invariant so far. */
  ghost predicate Fits(times: map<nat, int>, nextCheck: Option<int>, now: int, start: int, url: string, timeout: int,
                       names: set<MachineName>, poll: Poll)
  {
    && |times| < |PERCENTILES| && Timed(poll, timeout) && now <= poll.guardAt
    && poll.checked == (nextCheck.Some? && poll.begunAt >= nextCheck.value)
    && Asked(poll, start, url, names)
  }

  /** What a turn without failures leaves behind. */
  ghost predicate Settled(times: map<nat, int>, nextCheck: Option<int>, timeout: int, targets: map<nat, nat>,
                          met: map<nat, int>, poll: Poll, upcoming: Option<int>)
  {
    && met.Keys <= PERCENTS && Hits(times, met, poll.ready, poll.elapsed, targets)
    && upcoming == (if poll.checked then Some(poll.answeredAt + CHECK_INTERVAL) else nextCheck)
    && (|met| < |PERCENTILES| ==>
      var wake := NextWake(poll.decidedAt, timeout, upcoming);
      poll.slept == Max(0, wake - poll.decidedAt) && wake <= poll.resumedAt)
  }

  lemma TurnSettles(times: map<nat, int>, nextCheck: Option<int>, timeout: int, targets: map<nat, nat>,
                    met: map<nat, int>, p: Poll, poll: Poll, upcoming: Option<int>)
    requires met.Keys <= PERCENTS && Hits(times, met, p.ready, p.elapsed, targets)
    requires upcoming == if p.checked then Some(p.answeredAt + CHECK_INTERVAL) else nextCheck
    requires poll == p.(guardAt := poll.guardAt, decidedAt := poll.decidedAt, slept := poll.slept,
                        resumedAt := poll.resumedAt, naps := poll.naps)
    requires |met| < |PERCENTILES| ==>
      var wake := NextWake(poll.decidedAt, timeout, upcoming);
      poll.slept == Max(0, wake - poll.decidedAt) && wake <= poll.resumedAt
    ensures Settled(times, nextCheck, timeout, targets, met, poll, upcoming)
  {
  }

  lemma PunctualExtends(polls: seq<Poll>, poll: Poll, timeout: int, watching: bool)
    requires Punctual(polls, timeout, watching) && Rested(polls, timeout, Due(polls, watching))
    requires poll.checked == (Due(polls, watching).Some? && poll.begunAt >= Due(polls, watching).value)
    ensures Punctual(polls + [poll], timeout, watching)
    ensures Due(polls + [poll], watching) ==
      if poll.checked then Some(poll.answeredAt + CHECK_INTERVAL) else Due(polls, watching)
  {
    assert (polls + [poll])[..|polls|] == polls;
  }

  lemma WatchExtends(times: map<nat, int>, polls: seq<Poll>, nextCheck: Option<int>, now: int, timeout: int,
                     targets: map<nat, nat>, met: map<nat, int>, poll: Poll, upcoming: Option<int>)
    requires Watch(times, polls, nextCheck, timeout, targets)
    requires |times| < |PERCENTILES| && Timed(poll, timeout) && Resumed(polls, now) && now <= poll.guardAt
    requires poll.checked == (nextCheck.Some? && poll.begunAt >= nextCheck.value)
    requires Settled(times, nextCheck, timeout, targets, met, poll, upcoming)
    ensures Watch(met, polls + [poll], upcoming, timeout, targets)
    ensures upcoming.Some? <==> nextCheck.Some?
  {
    CadenceExtends(polls, poll, timeout, nextCheck.Some?, nextCheck);
    RecordedExtends(times, met, polls, poll, targets);
  }

  lemma TurnGoesOn(times: map<nat, int>, polls: seq<Poll>, nextCheck: Option<int>, now: int, start: int, url: string,
                   timeout: int, targets: map<nat, nat>, names: set<MachineName>,
                   times': map<nat, int>, poll: Poll, nextCheck': Option<int>)
    requires Going(times, polls, nextCheck, start, url, timeout, targets, names)
    requires Resumed(polls, now)
    requires Fits(times, nextCheck, now, start, url, timeout, names, poll) && poll.reported == []
    requires Settled(times, nextCheck, timeout, targets, times', poll, nextCheck')
    ensures Going(times', polls + [poll], nextCheck', start, url, timeout, targets, names)
  {
    WatchExtends(times, polls, nextCheck, now, timeout, targets, times', poll, nextCheck');
    PunctualExtends(polls, poll, timeout, names != {});
    GenuineExtends(times, polls, start, url, names, targets, poll);
  }

  lemma GenuineExtends(times: map<nat, int>, polls: seq<Poll>, start: int, url: string, names: set<MachineName>,
                       targets: map<nat, nat>, poll: Poll)
    requires Genuine(polls, start, url, names) && Quiet(polls) && Asked(poll, start, url, names)
    requires Recorded(times, polls, targets) && |times| < |PERCENTILES|
    ensures Genuine(polls + [poll], start, url, names)
    ensures (polls + [poll])[..|polls|] == polls && Unmet(polls, targets)
  {
    SomeUnmet(times, polls, targets);
  }

  lemma TurnFails(times: map<nat, int>, polls: seq<Poll>, nextCheck: Option<int>, now: int, start: int, url: string,
                  timeout: int, targets: map<nat, nat>, names: set<MachineName>, poll: Poll, end: World)
    requires Going(times, polls, nextCheck, start, url, timeout, targets, names)
    requires Resumed(polls, now)
    requires Fits(times, nextCheck, now, start, url, timeout, names, poll)
    requires AllTerminal(end, names) && poll.reported == ReportFor(FailedNames(end, names)) && poll.reported != []
    requires start + poll.resumedAt <= end.clock
    ensures Watched(ProvisioningFailed(poll.reported, BuildEnvelope(targets, times)), polls + [poll], start, url,
                    timeout, targets, names, end)
  {
    CadenceExtends(polls, poll, timeout, nextCheck.Some?, nextCheck);
    RecordedSummarises(times, polls, targets);
    PunctualExtends(polls, poll, timeout, names != {});
    GenuineExtends(times, polls, start, url, names, targets, poll);
  }

  lemma WatchEnds(times: map<nat, int>, polls: seq<Poll>, nextCheck: Option<int>, now: int, start: int, url: string,
                  timeout: int, targets: map<nat, nat>, names: set<MachineName>, end: World)
    requires Going(times, polls, nextCheck, start, url, timeout, targets, names)
    requires |times| >= |PERCENTILES| || start + timeout <= end.clock
    requires Resumed(polls, now) && start + now <= end.clock
    ensures Watched(Observed(BuildEnvelope(targets, times)), polls, start, url, timeout, targets, names, end)
  {
    RecordedSummarises(times, polls, targets);
    if |times| >= |PERCENTILES| {
      AllRecorded(times);
    }
  }

  /** A node count that finds nothing and a listing that fails, both at `w`. */
  ghost function Fruitless(w: World, url: string): seq<Event> {
    [NodesCounted(0, w), PageRead(url, None, w)]
  }

  lemma FruitlessAnswers(w: World, url: string, names: set<MachineName>)
    ensures Answers(Fruitless(w, url), true, url, names, 0, [])
    ensures Within(Fruitless(w, url), w.clock, w.clock)
  {
    var q := Fruitless(w, url);
    assert q[1..] == [q[1]] && q[..1] == [q[0]] && [q[0]][..0] == [];
    assert Linked([q[1]], url);
    assert ReportOf([q[1]], names) == {};
    assert Reports(q[1..], url, names, []);
    assert Within([q[0]], w.clock, w.clock);
  }

  /** The extra listing does happen: a 30-second watch whose second turn passes its guard just
      before the deadline and lists machines just after it, within the invariant of the loop. Its
      requests and its sleep are the history of a pool whose clock merely moves on. */
  lemma ExtraListing(w: World, url: string, name: MachineName, targets: map<nat, nat>) returns (polls: seq<Poll>)
    requires targets.Keys == PERCENTS && forall p :: p in PERCENTS ==> targets[p] > 0
    ensures Going(map[], polls, Some(2 * CHECK_INTERVAL), w.clock, url, CHECK_INTERVAL, targets, {name})
    ensures Chronicle(w, Trace(polls), w.(clock := w.clock + CHECK_INTERVAL))
    ensures Checks(polls, |polls|) == CeilDiv(CHECK_INTERVAL, CHECK_INTERVAL) + 1
  {
    var late := CHECK_INTERVAL - 1;
    var decided := late - POLL_INTERVAL;
    var awake, end := w.(clock := w.clock + late), w.(clock := w.clock + CHECK_INTERVAL);
    var nap := Slept(POLL_INTERVAL, awake);
    var first := Poll(0, 0, true, Fruitless(w, url), 0, 0, [], decided, decided, POLL_INTERVAL, late, [nap]);
    var second := Poll(late, CHECK_INTERVAL, true, Fruitless(end, url), CHECK_INTERVAL, 0, [],
                       CHECK_INTERVAL, CHECK_INTERVAL, 0, CHECK_INTERVAL, []);
    polls := [first, second];
    FruitlessAnswers(w, url, {name});
    FruitlessAnswers(end, url, {name});
    assert polls[..1] == [first] && [first][..0] == [] && [nap][..0] == [];
    assert Genuine([first], w.clock, url, {name});
    assert Genuine(polls, w.clock, url, {name});
    NothingSeen([first], targets);
    NothingSeen(polls, targets);
    LateListing(first, second, late);
    LateHistory(w, awake, end, url, first, second);
  }

  lemma LateHistory(w: World, awake: World, end: World, url: string, first: Poll, second: Poll)
    requires Evolves(w, awake) && Evolves(awake, end)
    requires first.queries == Fruitless(w, url) && first.naps == [Slept(POLL_INTERVAL, awake)]
    requires second.queries == Fruitless(end, url) && second.naps == []
    ensures Chronicle(w, Trace([first, second]), end)
  {
    FruitlessHappens(w, w, url);
    ChronicleNext(w, Fruitless(w, url), w, Slept(POLL_INTERVAL, awake));
    FruitlessHappens(awake, end, url);
    assert EventsOf(second) == Fruitless(end, url);
    ChronicleConcat(w, EventsOf(first), awake, EventsOf(second), end);
    TraceOfTwo(first, second);
  }

  lemma TraceOfTwo(first: Poll, second: Poll)
    ensures Trace([first, second]) == EventsOf(first) + EventsOf(second)
  {
    TraceExtends([], first);
    assert [] + [first] == [first] && Trace([first]) == EventsOf(first);
    TraceExtends([first], second);
    assert [first] + [second] == [first, second];
  }

  lemma FruitlessHappens(u: World, w: World, url: string)
    requires Evolves(u, w)
    ensures Chronicle(u, Fruitless(w, url), w)
  {
    var q := Fruitless(w, url);
    ChronicleOne(u, q[0], w);
    ChronicleNext(u, [q[0]], w, q[1]);
    assert [q[0]] + [q[1]] == q;
  }

  lemma LateListing(first: Poll, second: Poll, late: int)
    requires first.guardAt == first.begunAt == first.answeredAt == 0 && first.checked && second.checked
    requires late == CHECK_INTERVAL - 1 && first.elapsed == first.decidedAt == late - POLL_INTERVAL
    requires first.slept == POLL_INTERVAL && first.resumedAt == second.guardAt == late
    requires second.begunAt == second.answeredAt == second.elapsed == CHECK_INTERVAL
    requires second.decidedAt == second.resumedAt == CHECK_INTERVAL
    requires second.slept == 0
    ensures Cadence([first, second], CHECK_INTERVAL, true) && Checks([first, second], 2) == 2
    ensures CheckSchedule(Some(2 * CHECK_INTERVAL), [first, second])
    ensures Rested([first, second], CHECK_INTERVAL, Some(2 * CHECK_INTERVAL))
    ensures Punctual([first, second], CHECK_INTERVAL, true)
    ensures Due([first, second], true) == Some(2 * CHECK_INTERVAL)
  {
    assert [first, second][..1] == [first] && [first][..0] == [];
    assert Punctual([], CHECK_INTERVAL, true) && Punctual([first], CHECK_INTERVAL, true);
    assert Follows(first, second) && Timed(first, CHECK_INTERVAL) && Timed(second, CHECK_INTERVAL);
    assert Checks([first, second], 1) == 1;
  }

  lemma NothingSeen(polls: seq<Poll>, targets: map<nat, nat>)
    requires targets.Keys == PERCENTS && forall p :: p in PERCENTS ==> targets[p] > 0
    requires forall i :: 0 <= i < |polls| ==> polls[i].ready == 0
    ensures Recorded(map[], polls, targets) && Unmet(polls, targets)
  {
    forall p | p in PERCENTS ensures FirstHit(polls, targets[p]) == None {
      NoHit(polls, targets[p]);
    }
    assert 50 in PERCENTS;
  }

  /** What one turn of the loop does, entered when the guard has just read the clock. */
  method TakeTurn(pool: Pool, url: string, start: int, timeout: int, targets: map<nat, nat>, names: set<MachineName>,
                  times: map<nat, int>, nextCheck: Option<int>)
    returns (failed: seq<MachineName>, met: map<nat, int>, upcoming: Option<int>, ghost poll: Poll)
    requires start <= pool.world.clock < start + timeout && |times| < |PERCENTILES|
    requires times.Keys <= PERCENTS == targets.Keys && (nextCheck.Some? ==> names != {})
    modifies pool
    ensures pool.history == old(pool.history) + EventsOf(poll) && Chronicle(old(pool.world), EventsOf(poll), pool.world)
    ensures Fits(times, nextCheck, old(pool.world).clock - start, start, url, timeout, names, poll)
      && poll.reported == failed
    ensures failed != [] ==> AllTerminal(pool.world, names) && failed == ReportFor(FailedNames(pool.world, names))
    ensures start + poll.resumedAt == pool.world.clock
    ensures failed == [] ==> Settled(times, nextCheck, timeout, targets, met, poll, upcoming)
  {
    ghost var w, h, guardAt := pool.world, pool.history, pool.world.clock - start;
    met := times;
    var begunAt, ready, elapsed;
    ghost var p;
    begunAt, ready, failed, upcoming, elapsed, p := Observe(pool, url, names, start, nextCheck);
    if failed != [] {
      poll := p.(guardAt := guardAt, decidedAt := elapsed, slept := 0, resumedAt := elapsed, naps := []);
      assert p.queries + [] == p.queries;
    } else {
      ghost var observed := pool.world;
      var decidedAt, slept;
      ghost var naps;
      met, decidedAt, slept, naps := Settle(pool, start, timeout, targets, times, ready, elapsed, upcoming);
      poll := p.(guardAt := guardAt, decidedAt := decidedAt, slept := slept, resumedAt := pool.world.clock - start,
        naps := naps);
      Associate(h, p.queries, naps);
      ChronicleConcat(w, p.queries, observed, naps, pool.world);
      TurnSettles(times, nextCheck, timeout, targets, met, p, poll, upcoming);
    }
    AskedIsStable(p, poll, start, url, names);
  }

  /** One turn of the loop keeps its invariant, and advances the clock unless all targets are met, or
      ends the watch. */
  method Turn(pool: Pool, url: string, start: int, timeout: int, targets: map<nat, nat>, names: set<MachineName>,
              times: map<nat, int>, nextCheck: Option<int>, ghost polls: seq<Poll>)
    returns (failed: seq<MachineName>, met: map<nat, int>, upcoming: Option<int>, ghost poll: Poll)
    requires start <= pool.world.clock < start + timeout && |times| < |PERCENTILES|
    requires Going(times, polls, nextCheck, start, url, timeout, targets, names)
      && Resumed(polls, pool.world.clock - start)
    modifies pool
    ensures pool.history == old(pool.history) + EventsOf(poll) && Chronicle(old(pool.world), EventsOf(poll), pool.world)
    ensures failed != [] ==>
      Watched(ProvisioningFailed(failed, BuildEnvelope(targets, times)), polls + [poll], start, url, timeout, targets,
        names, pool.world)
    ensures failed == [] ==>
      && Going(met, polls + [poll], upcoming, start, url, timeout, targets, names)
      && Resumed(polls + [poll], pool.world.clock - start)
      && (|met| < |PERCENTILES| ==> old(pool.world).clock < pool.world.clock)
    ensures old(pool.world).clock <= pool.world.clock
  {
    ghost var guardAt := pool.world.clock - start;
    failed, met, upcoming, poll := TakeTurn(pool, url, start, timeout, targets, names, times, nextCheck);
    if failed != [] {
      TurnFails(times, polls, nextCheck, guardAt, start, url, timeout, targets, names, poll, pool.world);
    } else {
      TurnGoesOn(times, polls, nextCheck, guardAt, start, url, timeout, targets, names, met, poll, upcoming);
      ClockMoves(times, polls, nextCheck, guardAt, start, url, timeout, targets, names, met, poll, upcoming);
    }
  }

  lemma ClockMoves(times: map<nat, int>, polls: seq<Poll>, nextCheck: Option<int>, now: int, start: int, url: string,
                   timeout: int, targets: map<nat, nat>, names: set<MachineName>,
                   met: map<nat, int>, poll: Poll, upcoming: Option<int>)
    requires Going(times, polls, nextCheck, start, url, timeout, targets, names)
    requires Fits(times, nextCheck, now, start, url, timeout, names, poll)
    requires Settled(times, nextCheck, timeout, targets, met, poll, upcoming)
    ensures now <= poll.resumedAt && (|met| < |PERCENTILES| ==> now < poll.resumedAt)
  {
  }

  lemma AskedIsStable(p: Poll, q: Poll, start: int, url: string, names: set<MachineName>)
    requires Asked(p, start, url, names)
    requires q ==
      p.(guardAt := q.guardAt, decidedAt := q.decidedAt, slept := q.slept, resumedAt := q.resumedAt, naps := q.naps)
    requires IsNap(q.naps, q.slept) && Within(q.naps, start + q.decidedAt + q.slept, start + q.resumedAt)
    ensures Asked(q, start, url, names)
  {
    assert q.queries == p.queries && q.checked == p.checked && q.ready == p.ready && q.reported == p.reported;
    assert q.begunAt == p.begunAt && q.answeredAt == p.answeredAt;
  }

  /** A turn, and the clock reading of the guard that follows unless the turn ends the watch. */
  method TurnAndGuard(pool: Pool, url: string, start: int, timeout: int, targets: map<nat, nat>,
                      names: set<MachineName>, times: map<nat, int>, nextCheck: Option<int>,
                      ghost polls: seq<Poll>, ghost w: World, ghost h: seq<Event>)
    returns (failed: seq<MachineName>, met: map<nat, int>, upcoming: Option<int>, now: int, ghost polls': seq<Poll>)
    requires start <= pool.world.clock < start + timeout && |times| < |PERCENTILES|
    requires pool.history == h + Trace(polls) && Chronicle(w, Trace(polls), pool.world)
    requires Going(times, polls, nextCheck, start, url, timeout, targets, names)
      && Resumed(polls, pool.world.clock - start)
    modifies pool
    ensures pool.history == h + Trace(polls') && Chronicle(w, Trace(polls'), pool.world)
    ensures old(pool.world).clock <= pool.world.clock
    ensures failed != [] ==>
      Watched(ProvisioningFailed(failed, BuildEnvelope(targets, times)), polls', start, url, timeout, targets, names,
        pool.world)
    ensures failed == [] ==>
      && now == pool.world.clock && (|met| < |PERCENTILES| ==> old(pool.world).clock < now)
      && Going(met, polls', upcoming, start, url, timeout, targets, names) && Resumed(polls', now - start)
  {
    ghost var before := pool.world;
    ghost var poll;
    failed, met, upcoming, poll := Turn(pool, url, start, timeout, targets, names, times, nextCheck, polls);
    ghost var after := pool.world;
    TraceGoesOn(h, w, polls, before, poll, after);
    polls', now := polls + [poll], 0;
    if failed == [] {
      now := pool.Now();
      ChronicleWait(w, Trace(polls'), after, pool.world);
    }
  }

  /** The polling loop, for given targets. */
  method WatchNodes(pool: Pool, url: string, timeout: int, targets: map<nat, nat>, names: set<MachineName>)
    returns (r: Outcome, ghost polls: seq<Poll>, ghost start: int)
    requires targets.Keys == PERCENTS
    modifies pool
    ensures pool.history == old(pool.history) + Trace(polls) && Chronicle(old(pool.world), Trace(polls), pool.world)
    ensures old(pool.world).clock <= start <= pool.world.clock
    ensures Watched(r, polls, start, url, timeout, targets, names, pool.world)
  {
    polls := [];
    ghost var w, h := pool.world, pool.history;
    var times: map<nat, int> := map[];
    var begin := pool.Now();
    start := begin;
    var nextCheck := if names != {} then Some(0) else None;
    var now := pool.Now();
    while now - begin < timeout && |times| < |PERCENTILES|
      invariant w.clock <= begin == start <= now == pool.world.clock
      invariant pool.history == h + Trace(polls) && Chronicle(w, Trace(polls), pool.world)
      invariant Going(times, polls, nextCheck, start, url, timeout, targets, names) && Resumed(polls, now - begin)
      decreases if |times| < |PERCENTILES| then begin + timeout - now else 0
    {
      var failed, met, upcoming;
      failed, met, upcoming, now, polls :=
        TurnAndGuard(pool, url, begin, timeout, targets, names, times, nextCheck, polls, w, h);
      if failed != [] {
        return ProvisioningFailed(failed, BuildEnvelope(targets, times)), polls, start;
      }
      times, nextCheck := met, upcoming;
    }
    WatchEnds(times, polls, nextCheck, now - begin, start, url, timeout, targets, names, pool.world);
    r := Observed(BuildEnvelope(targets, times));
  }

  /** `_wait_for_machine_node_readiness`. `names` is empty when the caller gives no cluster or no
      machine names, which turns the machine listings off. */
  method WaitForReadiness(pool: Pool, url: string, expectedCount: int, timeout: int, baseline: nat,
                          names: set<MachineName>)
    returns (r: Outcome, ghost polls: seq<Poll>, ghost start: int)
    modifies pool
    ensures pool.history == old(pool.history) + Trace(polls) && Chronicle(old(pool.world), Trace(polls), pool.world)
    ensures old(pool.world).clock <= start <= pool.world.clock
    ensures expectedCount <= 0 ==> r == Observed(EmptyEnvelope()) && polls == []
    ensures expectedCount > 0 ==>
      && Watched(r, polls, start, url, timeout, Targets(baseline, expectedCount), names, pool.world)
      && TargetsFit(r.envelope, baseline, expectedCount)
    ensures r.envelope.Keys == {50, 70, 90, 99, 100}
    ensures expectedCount <= 0 ==> forall p :: p in r.envelope ==> r.envelope[p] == Entry(0, None, false)
  {
    if expectedCount <= 0 {
      return Observed(EmptyEnvelope()), [], pool.world.clock;
    }
    r, polls, start := WatchNodes(pool, url, timeout, Targets(baseline, expectedCount), names);
    WatchTargets(r, polls, start, url, timeout, baseline, expectedCount, names, pool.world);
  }

  lemma WatchTargets(r: Outcome, polls: seq<Poll>, start: int, url: string, timeout: int, baseline: nat, expected: nat,
                     names: set<MachineName>, end: World)
    requires Watched(r, polls, start, url, timeout, Targets(baseline, expected), names, end)
    ensures TargetsFit(r.envelope, baseline, expected)
  {
    forall p | p in r.envelope ensures LeastTarget(r.envelope[p].target, p, baseline, expected) {
      TargetIsLeast(p, baseline, expected);
      assert r.envelope[p].target == Targets(baseline, expected)[p];
    }
  }
}
