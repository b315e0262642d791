/** The part of Azure and Kubernetes that the machine scale path observes: a clock,
    the ARM state of every Machine in the agent pool, and the number of Ready nodes.
    The pool changes on its own between any two requests and keeps a history of them and of the
    caller's sleeps. */
module ArmPool {
  import opened Common
  import opened MachineNames
  import opened FailureReport

  datatype ProvisioningState = Succeeded | Failed | Canceled | InProgress(phase: string)

  /** One instant. Times are in microseconds. */
  datatype World = World(clock: int, arm: map<MachineName, ProvisioningState>, ready: nat)

  const SECOND := 1_000_000

  predicate Terminal(s: ProvisioningState) {
    s.Succeeded? || s.Failed? || s.Canceled?
  }

  predicate Failure(s: ProvisioningState) {
    s.Failed? || s.Canceled?
  }

  /** What time may do: the clock never goes back and terminal states are absorbing. */
  ghost predicate Evolves(w: World, w': World) {
    && w.clock <= w'.clock
    && forall n :: n in w.arm && Terminal(w.arm[n]) ==> n in w'.arm && w'.arm[n] == w.arm[n]
  }

  function InState(w: World, names: set<MachineName>, s: ProvisioningState): set<MachineName> {
    set n | n in names && n in w.arm && w.arm[n] == s
  }

  function FailedNames(w: World, names: set<MachineName>): set<MachineName> {
    InState(w, names, Failed) + InState(w, names, Canceled)
  }

  ghost predicate AllTerminal(w: World, names: set<MachineName>) {
    forall n :: n in names ==> n in w.arm && Terminal(w.arm[n])
  }

  /** Only a Succeeded machine can add a Ready node to those present at the start. */
  ghost predicate NodesComeFromMachines(w: World, names: set<MachineName>, baseline: nat) {
    w.ready <= baseline + |InState(w, names, Succeeded)|
  }

  /** A Machine resource as a listing shows it; absent JSON fields are `None`. */
  datatype Machine = Machine(name: Option<MachineName>, state: Option<ProvisioningState>)

  /** One page of a listing, the URL it was fetched from and its `nextLink` ("" when absent). */
  datatype Page = Page(url: string, machines: seq<Machine>, next: string)

  /** Each entry of a page was true at the moment the page was read. */
  ghost predicate Truthful(machines: seq<Machine>, w: World) {
    forall m :: m in machines && m.name.Some? && m.state.Some? ==>
      m.name.value in w.arm && w.arm[m.name.value] == m.state.value
  }

  /** The entries that are terminal in the listing are terminal, in the same state, in `w`. */
  ghost predicate TerminalEntriesHold(machines: seq<Machine>, w: World) {
    forall m :: m in machines && m.name.Some? && m.state.Some? && Terminal(m.state.value) ==>
      m.name.value in w.arm && w.arm[m.name.value] == m.state.value
  }

  /** What became of a GET of the agent pool: the request raised, or it was answered with an HTTP
      status and, for a JSON body, the provisioning state in it. */
  datatype AgentPoolAnswer = NoAnswer | Answer(status: int, isJson: bool, state: Option<ProvisioningState>)

  /** A request that creates machines: one in the URL, and the others in the header of a batch. */
  datatype Put = Put(target: MachineName, others: seq<MachineName>)

  function Machines(put: Put): seq<MachineName> {
    [put.target] + put.others
  }

  /** The answers that mean success, for a batch and for a single machine; a request that raises is
      answered with any other status. */
  predicate Accepts(batch: bool, status: int) {
    status in {200, 201, 202} || (batch && status == 204)
  }

  // ---- The history ----

  /** A request that was made and its outcome, or a sleep, and the world right after it. */
  datatype Event =
    | Slept(d: int, seen: World)
    | MachinesPut(put: Put, batch: bool, status: int, seen: World)
    | NodesCounted(count: nat, seen: World)
    | AgentPoolRead(answer: AgentPoolAnswer, seen: World)
    | PageRead(url: string, page: Option<Page>, seen: World)
    | ClusterRead(ok: bool, seen: World)

  /** Requests may fail but do not lie. */
  ghost predicate Honest(e: Event) {
    match e
    case NodesCounted(count, seen) => count == 0 || count == seen.ready
    case PageRead(url, page, seen) => page.Some? ==> page.value.url == url && Truthful(page.value.machines, seen)
    case _ => true
  }

  /** `events` are honest and were made, in this order, while the pool went from `w` to `w'`. */
  ghost predicate Chronicle(w: World, events: seq<Event>, w': World) {
    if events == [] then Evolves(w, w')
    else
      var last := events[|events| - 1];
      Honest(last) && Evolves(last.seen, w') && Chronicle(w, events[..|events| - 1], last.seen)
  }

  lemma EvolvesTransitively(u: World, v: World, w: World)
    requires Evolves(u, v) && Evolves(v, w)
    ensures Evolves(u, w)
  {
  }

  lemma {:induction false} ChronicleEvolves(u: World, events: seq<Event>, v: World)
    requires Chronicle(u, events, v)
    ensures Evolves(u, v)
  {
    if events != [] {
      var last := events[|events| - 1];
      ChronicleEvolves(u, events[..|events| - 1], last.seen);
      EvolvesTransitively(u, last.seen, v);
    }
  }

  /** Every event of a chronicle is honest and happened between its ends. */
  lemma {:induction false} ChronicleHolds(u: World, events: seq<Event>, v: World, e: Event)
    requires Chronicle(u, events, v) && e in events
    ensures Honest(e) && Evolves(u, e.seen) && Evolves(e.seen, v)
  {
    var init, last := events[..|events| - 1], events[|events| - 1];
    ChronicleEvolves(u, init, last.seen);
    if e in init {
      ChronicleHolds(u, init, last.seen, e);
      EvolvesTransitively(e.seen, last.seen, v);
    } else {
      assert e == last;
    }
  }

  /** Nothing is requested while the pool moves on. */
  lemma ChronicleWait(u: World, events: seq<Event>, v: World, w: World)
    requires Chronicle(u, events, v) && Evolves(v, w)
    ensures Chronicle(u, events, w)
  {
    if events == [] {
      EvolvesTransitively(u, v, w);
    } else {
      EvolvesTransitively(events[|events| - 1].seen, v, w);
    }
  }

  lemma {:induction false} ChronicleConcat(u: World, a: seq<Event>, v: World, b: seq<Event>, w: World)
    requires Chronicle(u, a, v) && Chronicle(v, b, w)
    ensures Chronicle(u, a + b, w)
  {
    if b == [] {
      assert a + b == a;
      ChronicleWait(u, a, v, w);
    } else {
      var init, last := b[..|b| - 1], b[|b| - 1];
      ChronicleConcat(u, a, v, init, last.seen);
      assert (a + b)[..|a + b| - 1] == a + init && (a + b)[|a + b| - 1] == last;
    }
  }

  lemma ChronicleNext(u: World, events: seq<Event>, v: World, e: Event)
    requires Chronicle(u, events, v) && Honest(e) && Evolves(v, e.seen)
    ensures Chronicle(u, events + [e], e.seen)
  {
    ChronicleWait(u, events, v, e.seen);
    assert (events + [e])[..|events|] == events;
  }

  lemma ChronicleOne(u: World, e: Event, w: World)
    requires Honest(e) && Evolves(u, e.seen) && Evolves(e.seen, w)
    ensures Chronicle(u, [e], w)
  {
    assert [e][..0] == [];
  }

  // ---- What was put ----

  function NamesIn(put: Put): set<MachineName> {
    set x | x in Machines(put)
  }

  /** The machines that were requested at all. */
  ghost function Targeted(events: seq<Event>): set<MachineName> {
    if events == [] then {}
    else
      var last := events[|events| - 1];
      Targeted(events[..|events| - 1]) + if last.MachinesPut? then NamesIn(last.put) else {}
  }

  /** The machines that were requested with success. */
  ghost function Landed(events: seq<Event>): set<MachineName> {
    if events == [] then {}
    else
      var last := events[|events| - 1];
      Landed(events[..|events| - 1])
      + if last.MachinesPut? && Accepts(last.batch, last.status) then NamesIn(last.put) else {}
  }

  /** Nothing but requests for at most `limit` machines each. */
  ghost predicate OnlyPuts(events: seq<Event>, limit: nat) {
    events != [] ==>
      var last := events[|events| - 1];
      last.MachinesPut? && |Machines(last.put)| <= limit && OnlyPuts(events[..|events| - 1], limit)
  }

  lemma PutsExtend(events: seq<Event>, e: Event, limit: nat)
    ensures Targeted(events + [e]) == Targeted(events) + if e.MachinesPut? then NamesIn(e.put) else {}
    ensures Landed(events + [e]) ==
      Landed(events) + if e.MachinesPut? && Accepts(e.batch, e.status) then NamesIn(e.put) else {}
    ensures OnlyPuts(events + [e], limit) <==>
      OnlyPuts(events, limit) && e.MachinesPut? && |Machines(e.put)| <= limit
  {
    assert (events + [e])[..|events|] == events;
  }

  lemma {:induction false} PutsConcat(a: seq<Event>, b: seq<Event>, limit: nat)
    ensures Targeted(a + b) == Targeted(a) + Targeted(b) && Landed(a + b) == Landed(a) + Landed(b)
    ensures OnlyPuts(a + b, limit) <==> OnlyPuts(a, limit) && OnlyPuts(b, limit)
  {
    if b == [] {
      assert a + b == a;
    } else {
      var n := |b| - 1;
      PutsConcat(a, b[..n], limit);
      assert (a + b)[..|a + b| - 1] == a + b[..n];
    }
  }

  class Pool {
    var world: World
    ghost var history: seq<Event>

    method Advance()
      modifies this`world
      ensures Evolves(old(world), world)
    {
      var clock: int := *;
      var arm: map<MachineName, ProvisioningState> := *;
      var ready: nat := *;
      var happens := *;
      var kept := forall n | n in world.arm :: Terminal(world.arm[n]) ==> n in arm && arm[n] == world.arm[n];
      if happens && world.clock <= clock && kept {
        world := World(clock, arm, ready);
      }
    }

    method Now() returns (t: int)
      modifies this`world
      ensures Evolves(old(world), world) && t == world.clock
    {
      Advance();
      t := world.clock;
    }

    /** Only a sleep is sure to advance the clock. */
    method Sleep(d: int)
      requires d >= 0
      modifies this
      ensures Evolves(old(world), world) && world.clock >= old(world).clock + d
      ensures history == old(history) + [Slept(d, world)]
    {
      world := world.(clock := world.clock + d);
      Advance();
      history := history + [Slept(d, world)];
    }

    /** A PUT that the server answers with `answer`. */
    method PutMachines(put: Put, batch: bool, answer: int) returns (status: int)
      modifies this
      ensures Evolves(old(world), world) && status == answer
      ensures history == old(history) + [MachinesPut(put, batch, status, world)]
    {
      Advance();
      status := answer;
      history := history + [MachinesPut(put, batch, status, world)];
    }

    /** `_get_ready_node_count`: a failed node listing counts as zero Ready nodes. */
    method ReadyNodeCount() returns (n: nat)
      modifies this
      ensures Evolves(old(world), world)
      ensures history == old(history) + [NodesCounted(n, world)] && Honest(NodesCounted(n, world))
    {
      Advance();
      var reached := *;
      n := if reached then world.ready else 0;
      history := history + [NodesCounted(n, world)];
    }

    method GetAgentPool() returns (answer: AgentPoolAnswer)
      modifies this
      ensures Evolves(old(world), world)
      ensures history == old(history) + [AgentPoolRead(answer, world)]
    {
      Advance();
      answer := *;
      history := history + [AgentPoolRead(answer, world)];
    }

    /** One GET of a machine listing; `None` is a request that raises, a non-200 answer or a body
        that is not JSON. */
    method GetPage(url: string) returns (page: Option<Page>)
      modifies this
      ensures Evolves(old(world), world)
      ensures history == old(history) + [PageRead(url, page, world)] && Honest(PageRead(url, page, world))
    {
      Advance();
      var machines: seq<Machine> := *;
      var next: string := *;
      var truthful := forall m | m in machines ::
        m.name.Some? && m.state.Some? ==> m.name.value in world.arm && world.arm[m.name.value] == m.state.value;
      page := if truthful then Some(Page(url, machines, next)) else None;
      history := history + [PageRead(url, page, world)];
    }

    /** `get_cluster_data`, which may raise. */
    method GetClusterData() returns (ok: bool)
      modifies this
      ensures Evolves(old(world), world)
      ensures history == old(history) + [ClusterRead(ok, world)]
    {
      Advance();
      ok := *;
      history := history + [ClusterRead(ok, world)];
    }
  }

  const AGENT_POOL_INTERVAL := 10 * SECOND

  datatype AgentPoolError = RequestFailed | ClientError(status: int)

  /** What an answer decides: success, failure, an exception, or nothing yet. */
  function Verdict(a: AgentPoolAnswer): Option<Result<bool, AgentPoolError>> {
    if a.NoAnswer? then Some(Err(RequestFailed))
    else if a.status != 200 then
      if 400 <= a.status < 500 then Some(Err(ClientError(a.status))) else None
    else if !a.isJson then None
    else match a.state
      case None => Some(Ok(false))
      case Some(Succeeded) => Some(Ok(true))
      case Some(Failed) => Some(Ok(false))
      case Some(_) => None
  }

  /** GETs of the agent pool without a verdict, each followed by a sleep. */
  ghost predicate Waiting(gets: seq<Event>) {
    gets != [] ==>
      var n := |gets| - 2;
      && n >= 0 && gets[n].AgentPoolRead? && Verdict(gets[n].answer) == None
      && gets[n + 1].Slept? && gets[n + 1].d == AGENT_POOL_INTERVAL
      && Waiting(gets[..n])
  }

  /** The wait ends with an answer. */
  ghost predicate Decided(gets: seq<Event>) {
    gets != [] && gets[|gets| - 1].AgentPoolRead?
  }

  /** What a wait does and returns: it gets and sleeps in turn until an answer has a verdict, which it
      returns, or gives up after a sleep. */
  ghost predicate AgentPoolWait(gets: seq<Event>, r: Result<bool, AgentPoolError>) {
    if Decided(gets) then
      Waiting(gets[..|gets| - 1]) && Verdict(gets[|gets| - 1].answer) == Some(r)
    else
      Waiting(gets) && r == Ok(false)
  }

  /** An answer after which the wait goes on: an error that is not the client's, a body that is not JSON,
      or a state that is present but neither "Succeeded" nor "Failed". */
  ghost predicate Inconclusive(a: AgentPoolAnswer) {
    && a.Answer?
    && if a.status == 200 then a.isJson ==> a.state.Some? && a.state.value != Succeeded && a.state.value != Failed
       else a.status < 400 || a.status >= 500
  }

  /** What a wait returns, in terms of the last answer itself. */
  lemma {:induction false} WaitMeans(gets: seq<Event>, r: Result<bool, AgentPoolError>)
    requires AgentPoolWait(gets, r)
    ensures r == Ok(true) <==>
      gets != [] && gets[|gets| - 1].AgentPoolRead? && gets[|gets| - 1].answer == Answer(200, true, Some(Succeeded))
    ensures r == Err(RequestFailed) <==>
      gets != [] && gets[|gets| - 1].AgentPoolRead? && gets[|gets| - 1].answer == NoAnswer
    ensures forall s :: r == Err(ClientError(s)) <==>
      && gets != [] && gets[|gets| - 1].AgentPoolRead? && gets[|gets| - 1].answer.Answer?
      && s == gets[|gets| - 1].answer.status && 400 <= s < 500
    ensures r == Ok(false) && gets != [] && gets[|gets| - 1].AgentPoolRead? ==>
      gets[|gets| - 1].answer in {Answer(200, true, None), Answer(200, true, Some(Failed))}
    ensures forall i :: 0 <= i < |gets| - 1 && gets[i].AgentPoolRead? ==> Inconclusive(gets[i].answer)
  {
    WaitingIsInconclusive(if Decided(gets) then gets[..|gets| - 1] else gets);
  }

  lemma {:induction false} WaitingIsInconclusive(gets: seq<Event>)
    requires Waiting(gets)
    ensures forall i :: 0 <= i < |gets| && gets[i].AgentPoolRead? ==> Inconclusive(gets[i].answer)
    ensures forall i :: 0 <= i < |gets| && gets[i].Slept? ==> gets[i].d == 10_000_000
  {
    if gets != [] {
      WaitingIsInconclusive(gets[..|gets| - 2]);
    }
  }

  /** `_wait_for_agentpool_provisioning`: the result is the verdict of the first answer that has
      one, or failure when the time is up; the number of requests is bounded by the timeout. */
  method WaitForAgentPool(pool: Pool, timeout: int) returns (r: Result<bool, AgentPoolError>, ghost gets: seq<Event>)
    modifies pool
    ensures pool.history == old(pool.history) + gets && Chronicle(old(pool.world), gets, pool.world)
    ensures AgentPoolWait(gets, r)
    ensures r == Ok(true) <==>
      gets != [] && gets[|gets| - 1].AgentPoolRead? && gets[|gets| - 1].answer == Answer(200, true, Some(Succeeded))
    ensures !Decided(gets) ==> old(pool.world).clock + timeout <= pool.world.clock
    ensures |gets| <= 2 * Max(0, CeilDiv(timeout, AGENT_POOL_INTERVAL))
  {
    gets := [];
    ghost var w, h, rounds: nat := pool.world, pool.history, 0;
    var start := pool.Now();
    var now := pool.Now();
    while now - start < timeout
      invariant w.clock <= start <= now <= pool.world.clock
      invariant pool.history == h + gets && Chronicle(w, gets, pool.world)
      invariant |gets| == 2 * rounds && AGENT_POOL_INTERVAL * rounds <= now - start
      invariant rounds <= Max(0, CeilDiv(timeout, AGENT_POOL_INTERVAL))
      invariant Waiting(gets)
      decreases start + timeout - now
    {
      ghost var before, waiting := pool.world, gets;
      var answer := pool.GetAgentPool();
      ghost var get, answered := AgentPoolRead(answer, pool.world), pool.world;
      ChronicleNext(w, gets, before, get);
      Associate(h, gets, [get]);
      gets := gets + [get];
      var verdict := Verdict(answer);
      if verdict.Some? {
        WaitMeans(gets, verdict.value);
        return verdict.value, gets;
      }
      pool.Sleep(AGENT_POOL_INTERVAL);
      ghost var nap, rested := Slept(AGENT_POOL_INTERVAL, pool.world), pool.world;
      ChronicleNext(w, gets, answered, nap);
      Associate(h, gets, [nap]);
      gets := gets + [nap];
      assert gets[..|gets| - 2] == waiting;
      rounds := rounds + 1;
      now := pool.Now();
      ChronicleWait(w, gets, rested, pool.world);
    }
    r := Ok(false);
    WaitMeans(gets, r);
  }

  const MAX_PAGES: nat := 50

  datatype ListError = BadPage | TooManyPages

  /** The machines on the pages that were read. */
  function Entries(gets: seq<Event>): seq<Machine> {
    if gets == [] then []
    else
      var last := gets[|gets| - 1];
      Entries(gets[..|gets| - 1]) + if last.PageRead? && last.page.Some? then last.page.value.machines else []
  }

  /** A read of a page that has a successor. */
  predicate Continues(e: Event) {
    e.PageRead? && e.page.Some? && e.page.value.next != ""
  }

  /** `gets` starts at `url`, and every later read follows the link before it. */
  ghost predicate Linked(gets: seq<Event>, url: string) {
    gets != [] &&
    var n := |gets| - 1;
    gets[n].PageRead? &&
    if n == 0 then gets[n].url == url
    else Continues(gets[n - 1]) && gets[n].url == gets[n - 1].page.value.next && Linked(gets[..n], url)
  }

  /** The requests of one listing: at least one page and at most `MAX_PAGES`, up to the first that
      is bad or has no successor. */
  ghost predicate OneListing(gets: seq<Event>, url: string) {
    && Linked(gets, url) && |gets| <= MAX_PAGES
    && (Continues(gets[|gets| - 1]) ==> |gets| == MAX_PAGES)
  }

  /** What a listing makes of the pages it read. */
  function ListingResult(gets: seq<Event>): Result<seq<Machine>, ListError> {
    if gets == [] || !gets[|gets| - 1].PageRead? || gets[|gets| - 1].page.None? then Err(BadPage)
    else if Continues(gets[|gets| - 1]) then Err(TooManyPages)
    else Ok(Entries(gets))
  }

  function MachinesOf(e: Event): seq<Machine> {
    if e.PageRead? && e.page.Some? then e.page.value.machines else []
  }

  /** The number of machines on the first `i` pages. */
  function MachinesBefore(gets: seq<Event>, i: nat): nat
    requires i <= |gets|
  {
    if i == 0 then 0 else MachinesBefore(gets, i - 1) + |MachinesOf(gets[i - 1])|
  }

  lemma {:induction false} MachinesBeforePrefix(gets: seq<Event>, n: nat, i: nat)
    requires i <= n <= |gets|
    ensures MachinesBefore(gets[..n], i) == MachinesBefore(gets, i)
  {
    if i > 0 {
      MachinesBeforePrefix(gets, n, i - 1);
    }
  }

  /** The listing is the machines of the pages, page by page, each page in its own order. */
  lemma {:induction false} EntriesInOrder(gets: seq<Event>, i: nat, k: nat)
    requires i < |gets| && k < |MachinesOf(gets[i])|
    ensures |Entries(gets)| == MachinesBefore(gets, |gets|)
    ensures MachinesBefore(gets, i) + k < |Entries(gets)|
    ensures Entries(gets)[MachinesBefore(gets, i) + k] == MachinesOf(gets[i])[k]
  {
    var n := |gets| - 1;
    EntriesLength(gets[..n]);
    MachinesBeforePrefix(gets, n, n);
    assert Entries(gets) == Entries(gets[..n]) + MachinesOf(gets[n]);
    if i < n {
      MachinesBeforePrefix(gets, n, i);
      assert gets[..n][i] == gets[i];
      EntriesInOrder(gets[..n], i, k);
    }
  }

  lemma {:induction false} EntriesLength(gets: seq<Event>)
    ensures |Entries(gets)| == MachinesBefore(gets, |gets|)
  {
    if gets != [] {
      var n := |gets| - 1;
      EntriesLength(gets[..n]);
      MachinesBeforePrefix(gets, n, n);
    }
  }

  lemma GetsExtend(gets: seq<Event>, read: Event, first: string)
    requires read.PageRead? && (gets != [] ==> Linked(gets, first))
    requires if gets == [] then read.url == first
             else Continues(gets[|gets| - 1]) && read.url == gets[|gets| - 1].page.value.next
    ensures Linked(gets + [read], first)
    ensures Entries(gets + [read]) == Entries(gets) + if read.page.Some? then read.page.value.machines else []
  {
    assert (gets + [read])[..|gets|] == gets;
  }

  /** `_list_machines`: follow ARM pagination for at most `MAX_PAGES` requests. The listing is not
      a snapshot, since the pool moves on between pages, yet what it calls terminal still is. */
  method ListMachines(pool: Pool, first: string) returns (r: Result<seq<Machine>, ListError>, ghost gets: seq<Event>)
    modifies pool
    ensures pool.history == old(pool.history) + gets && Chronicle(old(pool.world), gets, pool.world)
    ensures OneListing(gets, first) && r == ListingResult(gets)
    ensures gets != [] && |gets| <= 50 && gets[|gets| - 1].PageRead?
    ensures r == Err(BadPage) <==> gets[|gets| - 1].page == None
    ensures r.Ok? <==> gets[|gets| - 1].page.Some? && gets[|gets| - 1].page.value.next == ""
    ensures r == Err(TooManyPages) ==> |gets| == 50
    ensures r.Ok? ==> r.value == Entries(gets)
    ensures r.Ok? ==> TerminalEntriesHold(r.value, pool.world)
  {
    var machines: seq<Machine>, url := [], first;
    gets := [];
    ghost var w, h := pool.world, pool.history;
    for k := 0 to MAX_PAGES
      invariant |gets| == k
      invariant pool.history == h + gets && Chronicle(w, gets, pool.world)
      invariant k > 0 ==> Linked(gets, first) && Continues(gets[k - 1])
      invariant url == if k == 0 then first else gets[k - 1].page.value.next
      invariant machines == Entries(gets) && TerminalEntriesHold(machines, pool.world)
    {
      ghost var before := pool.world;
      var page := pool.GetPage(url);
      ghost var read := PageRead(url, page, pool.world);
      ChronicleNext(w, gets, before, read);
      Associate(h, gets, [read]);
      GetsExtend(gets, read, first);
      gets := gets + [read];
      if page.None? {
        return Err(BadPage), gets;
      }
      machines := machines + page.value.machines;
      if page.value.next == "" {
        return Ok(machines), gets;
      }
      url := page.value.next;
    }
    r := Err(TooManyPages);
  }

  /** The entry kept for `name` by a dictionary built from the listing: the last one. */
  function LastEntry(machines: seq<Machine>, name: MachineName): Option<Machine> {
    if machines == [] then None
    else if machines[|machines| - 1].name == Some(name) then Some(machines[|machines| - 1])
    else LastEntry(machines[..|machines| - 1], name)
  }

  predicate ListedTerminal(machines: seq<Machine>, name: MachineName) {
    var e := LastEntry(machines, name);
    e.Some? && e.value.state.Some? && Terminal(e.value.state.value)
  }

  /** The names to report: nothing until every expected machine is listed in a terminal state. */
  function ReportedFailures(machines: seq<Machine>, names: set<MachineName>): set<MachineName> {
    if forall n :: n in names ==> ListedTerminal(machines, n) then
      set n | n in names && Failure(LastEntry(machines, n).value.state.value)
    else
      {}
  }

  lemma {:induction false} LastEntryIsListed(machines: seq<Machine>, name: MachineName)
    ensures LastEntry(machines, name).Some? ==>
      LastEntry(machines, name).value in machines && LastEntry(machines, name).value.name == Some(name)
  {
    if machines != [] {
      LastEntryIsListed(machines[..|machines| - 1], name);
    }
  }

  /** Entry `i` is the last one listed under `name`. */
  ghost predicate IsLastEntry(machines: seq<Machine>, name: MachineName, i: int) {
    && 0 <= i < |machines| && machines[i].name == Some(name)
    && forall j :: i < j < |machines| ==> machines[j].name != Some(name)
  }

  /** A later entry for a name replaces an earlier one. */
  lemma {:induction false} LastEntryIsLast(machines: seq<Machine>, name: MachineName)
    ensures LastEntry(machines, name) == None <==> forall i :: 0 <= i < |machines| ==> machines[i].name != Some(name)
    ensures forall i :: IsLastEntry(machines, name, i) ==> LastEntry(machines, name) == Some(machines[i])
  {
    if machines != [] {
      var n := |machines| - 1;
      LastEntryIsLast(machines[..n], name);
      forall i | IsLastEntry(machines, name, i) ensures LastEntry(machines, name) == Some(machines[i]) {
        if i < n {
          assert machines[n].name != Some(name) && IsLastEntry(machines[..n], name, i);
        }
      }
      if machines[n].name != Some(name) && LastEntry(machines[..n], name) == None {
        assert forall i :: 0 <= i < n ==> machines[..n][i].name == machines[i].name;
      } else if machines[n].name != Some(name) {
        var i :| 0 <= i < n && machines[..n][i].name == Some(name);
        assert machines[i].name == Some(name);
      }
    }
  }

  /** What is reported, in terms of the states themselves. */
  lemma ReportedFailuresMean(machines: seq<Machine>, names: set<MachineName>, n: MachineName)
    ensures n in ReportedFailures(machines, names) <==>
      && (forall x :: x in names ==>
        LastEntry(machines, x).Some? &&
        LastEntry(machines, x).value.state in {Some(Succeeded), Some(Failed), Some(Canceled)})
      && n in names && LastEntry(machines, n).value.state in {Some(Failed), Some(Canceled)}
  {
    forall x | x in names
      ensures ListedTerminal(machines, x) <==>
        LastEntry(machines, x).Some? &&
        LastEntry(machines, x).value.state in {Some(Succeeded), Some(Failed), Some(Canceled)}
    {
    }
  }

  lemma ReportedFailuresAreTrue(machines: seq<Machine>, names: set<MachineName>, w: World)
    requires TerminalEntriesHold(machines, w)
    requires ReportedFailures(machines, names) != {}
    ensures AllTerminal(w, names) && ReportedFailures(machines, names) == FailedNames(w, names)
  {
    forall n | n in names
      ensures n in w.arm && LastEntry(machines, n).value.state == Some(w.arm[n]) && Terminal(w.arm[n])
    {
      LastEntryIsListed(machines, n);
      assert ListedTerminal(machines, n);
    }
  }

  /** The listing shows every expected machine exactly as it is. */
  ghost predicate Snapshot(machines: seq<Machine>, names: set<MachineName>, w: World) {
    && (forall n :: n in names && n in w.arm ==> LastEntry(machines, n) == Some(Machine(Some(n), Some(w.arm[n]))))
    && (forall n :: n in names && n !in w.arm ==> LastEntry(machines, n) == None)
  }

  /** A snapshot reports exactly the failures of a pool in which nothing is left to wait for. */
  lemma ReportedFailuresOfSnapshot(machines: seq<Machine>, names: set<MachineName>, w: World)
    requires Snapshot(machines, names, w)
    ensures ReportedFailures(machines, names) == if AllTerminal(w, names) then FailedNames(w, names) else {}
  {
    forall n | n in names
      ensures ListedTerminal(machines, n) == (n in w.arm && Terminal(w.arm[n]))
    {
    }
    if AllTerminal(w, names) {
      forall n | n in names
        ensures n in ReportedFailures(machines, names) <==> n in FailedNames(w, names)
      {
        assert ListedTerminal(machines, n);
      }
    }
  }

  /** What the requests of a listing give away about `names`. */
  function ReportOf(gets: seq<Event>, names: set<MachineName>): set<MachineName> {
    if ListingResult(gets).Ok? then ReportedFailures(ListingResult(gets).value, names) else {}
  }

  /** `_get_terminal_machine_provisioning_failures`, for names to ask about: the first ten failures in
      the order of their names, once every machine is terminal. A non-empty answer is the truth about
      the pool at the time it is given, although it was collected page by page; an empty one is, too, if
      the listing was a snapshot. */
  method TerminalProvisioningFailures(pool: Pool, url: string, names: set<MachineName>)
    returns (r: Result<seq<MachineName>, ListError>, ghost gets: seq<Event>)
    modifies pool
    ensures pool.history == old(pool.history) + gets && Chronicle(old(pool.world), gets, pool.world)
    ensures names == {} ==> r == Ok([]) && gets == []
    ensures names != {} ==> OneListing(gets, url)
    ensures names != {} ==> match ListingResult(gets)
      case Ok(machines) => r.Ok? && r.value == ReportFor(ReportedFailures(machines, names))
      case Err(e) => r == Err(e)
    ensures r.Ok? && r.value != [] ==>
      AllTerminal(pool.world, names) && r.value == ReportFor(FailedNames(pool.world, names))
    ensures names != {} && r.Ok? && Snapshot(Entries(gets), names, pool.world) && AllTerminal(pool.world, names) ==>
      r.value == ReportFor(FailedNames(pool.world, names))
  {
    if names == {} {
      return Ok([]), [];
    }
    var machines;
    machines, gets := ListMachines(pool, url);
    if machines.Err? {
      return Err(machines.error), gets;
    }
    var failed := ReportedFailures(machines.value, names);
    if failed != {} {
      ReportedFailuresAreTrue(machines.value, names, pool.world);
    }
    if Snapshot(machines.value, names, pool.world) {
      ReportedFailuresOfSnapshot(machines.value, names, pool.world);
    }
    var report := Report(failed);
    r := Ok(report);
  }

  lemma TerminalPersists(w: World, w': World, names: set<MachineName>)
    requires AllTerminal(w, names) && Evolves(w, w')
    ensures AllTerminal(w', names) && FailedNames(w', names) == FailedNames(w, names)
  {
  }

  /** A goal of Ready nodes that no continuation of `w` attains, if `present` nodes were Ready before. */
  ghost predicate OutOfReach(w: World, names: set<MachineName>, present: nat, goal: nat) {
    forall w' :: Evolves(w, w') && NodesComeFromMachines(w', names, present) ==> w'.ready < goal
  }

  lemma TerminalSplit(w: World, names: set<MachineName>)
    requires AllTerminal(w, names)
    ensures |names| == |InState(w, names, Succeeded)| + |FailedNames(w, names)|
  {
    var up, down := InState(w, names, Succeeded), FailedNames(w, names);
    forall n | n in names ensures n in up + down {
      assert Terminal(w.arm[n]);
    }
    assert names == up + down && up !! down;
  }

  /** Once every requested machine is terminal, the nodes asked for are out of reach exactly when
      the failed machines outnumber the nodes that the baseline did not count. */
  lemma FailureIsFinalIff(w: World, names: set<MachineName>, present: nat, baseline: nat)
    requires AllTerminal(w, names)
    ensures OutOfReach(w, names, present, baseline + |names|) <==> present < baseline + |FailedNames(w, names)|
  {
    TerminalSplit(w, names);
    var up := InState(w, names, Succeeded);
    if present < baseline + |FailedNames(w, names)| {
      forall w' | Evolves(w, w') && NodesComeFromMachines(w', names, present)
        ensures w'.ready < baseline + |names|
      {
        TerminalPersists(w, w', names);
        TerminalSplit(w', names);
      }
    } else {
      var best := w.(ready := present + |up|);
      assert InState(best, names, Succeeded) == up;
      assert Evolves(w, best) && NodesComeFromMachines(best, names, present);
    }
  }
}
