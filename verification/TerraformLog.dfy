/** Collecting operation records from a Terraform log. */
module TerraformLog {
  import opened Common
  import opened Text

  /** A module path as the start and completion patterns capture it, hence never empty. */
  datatype ModulePath = ModulePath(text: string)

  /** A time as the completion and elapsed patterns capture it, hence never empty. */
  datatype Duration = Duration(text: string)

  /** What the three patterns, tried in this order, find in a line. */
  datatype Event =
    | Start(path: ModulePath)
    | Complete(done: ModulePath, time: Duration)
    | Elapsed(seen: Duration)
    | Other

  /** A line, and whether it contains "context deadline exceeded". */
  datatype Line = Line(event: Event, deadline: bool)

  datatype Record = Record(path: ModulePath, seconds: nat, success: bool, timedOut: bool)

  // ---- Durations ----

  predicate IsUnit(c: char) {
    c == 'h' || c == 'm' || c == 's'
  }

  function UnitSeconds(c: char): nat
    requires IsUnit(c)
  {
    if c == 'h' then 3600 else if c == 'm' then 60 else 1
  }

  /** The total of all digit runs that are followed by a unit, after `digits` have just been read. */
  function SecondsFrom(digits: string, s: string): nat
    requires AllDigits(digits)
    decreases s
  {
    if s == "" then 0
    else if IsDigit(s[0]) then SecondsFrom(digits + [s[0]], s[1..])
    else (if IsUnit(s[0]) && digits != "" then Value(digits) * UnitSeconds(s[0]) else 0) + SecondsFrom("", s[1..])
  }

  function Seconds(s: string): nat {
    SecondsFrom("", s)
  }

  /** `time_to_seconds`. */
  method TimeToSeconds(s: string) returns (seconds: nat)
    ensures seconds == Seconds(s)
  {
    seconds := 0;
    var digits := "";
    for i := 0 to |s|
      invariant AllDigits(digits)
      invariant Seconds(s) == seconds + SecondsFrom(digits, s[i..])
    {
      assert s[i..][0] == s[i] && s[i..][1..] == s[i + 1..];
      if IsDigit(s[i]) {
        digits := digits + [s[i]];
      } else {
        if IsUnit(s[i]) && digits != "" {
          seconds := seconds + Value(digits) * UnitSeconds(s[i]);
        }
        digits := "";
      }
    }
  }

  /** A numeral followed by its unit. */
  function Quantity(n: nat, u: char): string {
    Decimal(n) + [u]
  }

  lemma {:induction false} DigitsAreCollected(digits: string, more: string, rest: string)
    requires AllDigits(digits) && AllDigits(more)
    ensures AllDigits(digits + more) && SecondsFrom(digits, more + rest) == SecondsFrom(digits + more, rest)
    decreases more
  {
    if more == "" {
      assert more + rest == rest && digits + more == digits;
    } else {
      assert (more + rest)[1..] == more[1..] + rest;
      DigitsAreCollected(digits + [more[0]], more[1..], rest);
      assert digits + [more[0]] + more[1..] == digits + more;
    }
  }

  lemma QuantityCounts(n: nat, u: char, rest: string)
    requires IsUnit(u)
    ensures Seconds(Quantity(n, u) + rest) == n * UnitSeconds(u) + Seconds(rest)
  {
    DigitsAreCollected("", Decimal(n), [u] + rest);
    assert "" + Decimal(n) == Decimal(n);
    assert Quantity(n, u) + rest == Decimal(n) + ([u] + rest);
    assert ([u] + rest)[1..] == rest;
    ValueOfDecimal(n);
  }

  /** Every form the patterns capture denotes the duration it spells out. */
  lemma DurationsAreExact(h: nat, m: nat, s: nat)
    ensures Seconds(Quantity(h, 'h') + (Quantity(m, 'm') + Quantity(s, 's'))) == 3600 * h + 60 * m + s
    ensures Seconds(Quantity(h, 'h') + Quantity(s, 's')) == 3600 * h + s
    ensures Seconds(Quantity(m, 'm') + Quantity(s, 's')) == 60 * m + s
    ensures Seconds(Quantity(s, 's')) == s
  {
    QuantityCounts(h, 'h', Quantity(m, 'm') + Quantity(s, 's'));
    QuantityCounts(h, 'h', Quantity(s, 's'));
    QuantityCounts(m, 'm', Quantity(s, 's'));
    QuantityCounts(s, 's', "");
    assert Quantity(s, 's') + "" == Quantity(s, 's');
  }

  // ---- Segmentation: what the log means ----

  function Success(path: ModulePath, time: Duration): Record {
    Record(path, Seconds(time.text), true, false)
  }

  function FailureRecord(path: ModulePath, elapsed: Option<Duration>, timedOut: bool): Record {
    Record(path, Seconds(if elapsed.Some? then elapsed.value.text else "0s"), false, timedOut)
  }

  /** The number of lines before the first start. */
  function Body(lines: seq<Line>): (n: nat)
    ensures n <= |lines|
    ensures forall i :: 0 <= i < n ==> !lines[i].event.Start?
    ensures n < |lines| ==> lines[n].event.Start?
  {
    if lines == [] || lines[0].event.Start? then 0 else 1 + Body(lines[1..])
  }

  /** The completions among some lines, in order. */
  function Completions(lines: seq<Line>): seq<Record> {
    if lines == [] then []
    else
      (match lines[0].event
       case Complete(path, time) => [Success(path, time)]
       case _ => []) + Completions(lines[1..])
  }

  /** The last elapsed time reported in `lines`, or `before` if there is none. */
  function LastElapsed(before: Option<Duration>, lines: seq<Line>): Option<Duration>
    decreases lines
  {
    if lines == [] then before
    else LastElapsed(if lines[0].event.Elapsed? then Some(lines[0].event.seen) else before, lines[1..])
  }

  predicate DeadlineIn(lines: seq<Line>) {
    exists i :: 0 <= i < |lines| && lines[i].deadline
  }

  /** What is still to be recorded for an open run of `path`: nothing before the first start of the
      log; the completions of its body; or one failure with the last elapsed time and whether a
      deadline passed, up to and including the line that starts the next run. */
  function RunRecords(path: Option<ModulePath>, done: bool, elapsed: Option<Duration>, deadline: bool,
                      body: seq<Line>, closing: bool): seq<Record> {
    var completed := Completions(body);
    if done || completed != [] || path.None? then completed
    else [FailureRecord(path.value, LastElapsed(elapsed, body), deadline || DeadlineIn(body) || closing)]
  }

  /** The records of a log from its first start on: those of its first run, then the others. */
  function FromStart(lines: seq<Line>): seq<Record>
    requires lines != [] ==> lines[0].event.Start?
  {
    if lines == [] then []
    else
      var n := Body(lines[1..]) + 1;
      RunRecords(Some(lines[0].event.path), false, None, false, lines[1..n], n < |lines| && lines[n].deadline)
      + FromStart(lines[n..])
  }

  /** The records of a whole log. */
  function Records(lines: seq<Line>): seq<Record> {
    Remaining(FRESH, lines)
  }

  /** The four variables of the log processor. */
  datatype State = State(path: Option<ModulePath>, elapsed: Option<Duration>, completed: bool, timedOut: bool)

  /** Before the first line. */
  const FRESH := State(None, None, false, false)

  /** What a processor in state `s` still owes for `lines`, by segmentation. */
  function Remaining(s: State, lines: seq<Line>): seq<Record> {
    var n := Body(lines);
    RunRecords(s.path, s.completed, s.elapsed, s.timedOut, lines[..n], n < |lines| && lines[n].deadline)
    + FromStart(lines[n..])
  }

  // ---- The processor ----

  /** The state after a line, and the records it appends. */
  function Step(s: State, line: Line): (State, seq<Record>) {
    var timedOut := s.timedOut || line.deadline;
    match line.event
    case Start(path) => (State(Some(path), None, false, false), Flush(s.(timedOut := timedOut)))
    case Complete(path, time) => (s.(timedOut := timedOut, completed := true), [Success(path, time)])
    case Elapsed(time) => (s.(timedOut := timedOut, elapsed := Some(time)), [])
    case Other => (s.(timedOut := timedOut), [])
  }

  function Flush(s: State): seq<Record> {
    if s.path.Some? && !s.completed then [FailureRecord(s.path.value, s.elapsed, s.timedOut)] else []
  }

  lemma StartStep(s: State, lines: seq<Line>)
    requires lines != [] && lines[0].event.Start?
    ensures Remaining(s, lines) == Step(s, lines[0]).1 + Remaining(Step(s, lines[0]).0, lines[1..])
  {
    var n := Body(lines[1..]) + 1;
    assert lines[..0] == [] && lines[0..] == lines;
    assert lines[1..][..n - 1] == lines[1..n] && lines[1..][n - 1..] == lines[n..];
  }

  lemma BodyStep(s: State, lines: seq<Line>)
    requires lines != [] && !lines[0].event.Start?
    ensures Remaining(s, lines) == Step(s, lines[0]).1 + Remaining(Step(s, lines[0]).0, lines[1..])
  {
    var n := Body(lines);
    var closing, s' := n < |lines| && lines[n].deadline, Step(s, lines[0]).0;
    var rest := RunRecords(s'.path, s'.completed, s'.elapsed, s'.timedOut, lines[..n][1..], closing);
    RunStep(s, lines[..n], closing);
    assert lines[..n][1..] == lines[1..][..n - 1];
    assert lines[1..][n - 1..] == lines[n..];
    Associate(Step(s, lines[0]).1, rest, FromStart(lines[n..]));
  }

  lemma RunStep(s: State, body: seq<Line>, closing: bool)
    requires body != [] && !body[0].event.Start?
    ensures var s' := Step(s, body[0]).0;
      RunRecords(s.path, s.completed, s.elapsed, s.timedOut, body, closing) ==
      Step(s, body[0]).1 + RunRecords(s'.path, s'.completed, s'.elapsed, s'.timedOut, body[1..], closing)
  {
    DeadlineCons(body);
  }

  lemma DeadlineCons(body: seq<Line>)
    requires body != []
    ensures DeadlineIn(body) <==> body[0].deadline || DeadlineIn(body[1..])
  {
    if i :| 0 <= i < |body| && body[i].deadline {
      assert i > 0 ==> body[1..][i - 1].deadline;
    }
    if i :| 0 <= i < |body[1..]| && body[1..][i].deadline {
      assert body[i + 1].deadline;
    }
  }

  /** The state after some lines. */
  function After(s: State, lines: seq<Line>): State
    decreases lines
  {
    if lines == [] then s else After(Step(s, lines[0]).0, lines[1..])
  }

  /** The records appended while reading some lines. */
  function Emitted(s: State, lines: seq<Line>): seq<Record>
    decreases lines
  {
    if lines == [] then [] else Step(s, lines[0]).1 + Emitted(Step(s, lines[0]).0, lines[1..])
  }

  /** All records of a log: those appended on the way and the flush at its end. */
  function Collected(s: State, lines: seq<Line>): seq<Record> {
    Emitted(s, lines) + Flush(After(s, lines))
  }

  /** The four-variable processor computes the segmentation. */
  lemma {:induction false} ProcessorSegments(s: State, lines: seq<Line>)
    ensures Collected(s, lines) == Remaining(s, lines)
    decreases lines
  {
    if lines == [] {
      RemainingOfNothing(s, lines);
    } else {
      ProcessorSegments(Step(s, lines[0]).0, lines[1..]);
      if lines[0].event.Start? {
        StartStep(s, lines);
      } else {
        BodyStep(s, lines);
      }
    }
  }

  lemma RemainingOfNothing(s: State, lines: seq<Line>)
    requires lines == []
    ensures Remaining(s, lines) == Flush(s)
  {
  }

  lemma OneMore(results: seq<Record>, s: State, lines: seq<Line>)
    requires lines != []
    ensures results + Collected(s, lines) ==
      results + Step(s, lines[0]).1 + Collected(Step(s, lines[0]).0, lines[1..])
  {
    var s', more := Step(s, lines[0]).0, Step(s, lines[0]).1;
    Associate(more, Emitted(s', lines[1..]), Flush(After(s', lines[1..])));
    Associate(results, more, Collected(s', lines[1..]));
  }

  // ---- What the records say ----

  /** Where the run that starts at line `i` ends: at the next start, or with the log. */
  function RunEnd(lines: seq<Line>, i: nat): (e: nat)
    requires i < |lines|
    ensures i < e <= |lines|
    ensures forall j :: i < j < e ==> !lines[j].event.Start?
    ensures e < |lines| ==> lines[e].event.Start?
  {
    i + 1 + Body(lines[i + 1..])
  }

  /** A start whose run has no completion. */
  predicate Unfinished(lines: seq<Line>, i: nat)
    requires i < |lines|
  {
    lines[i].event.Start? && forall j :: i < j < RunEnd(lines, i) ==> !lines[j].event.Complete?
  }

  /** A line that gives rise to a record: a completion, or the start of an unfinished run. */
  predicate Reportable(lines: seq<Line>, i: nat)
    requires i < |lines|
  {
    lines[i].event.Complete? || Unfinished(lines, i)
  }

  /** The reportable lines from `i` to `e`. */
  function Origins(lines: seq<Line>, i: nat, e: nat): (origins: seq<nat>)
    requires i <= e <= |lines|
    decreases e - i
  {
    if i == e then []
    else if Reportable(lines, i) then [i] + Origins(lines, i + 1, e)
    else Origins(lines, i + 1, e)
  }

  /** They are all of them, in order. */
  lemma {:induction false} OriginsAre(lines: seq<Line>, i: nat, e: nat)
    requires i <= e <= |lines|
    ensures var origins := Origins(lines, i, e);
      && (forall k, l :: 0 <= k < l < |origins| ==> origins[k] < origins[l])
      && (forall j :: j in origins ==> i <= j < e && Reportable(lines, j))
      && (forall j :: i <= j < e && Reportable(lines, j) ==> j in origins)
    decreases e - i
  {
    if i < e {
      OriginsAre(lines, i + 1, e);
      Ascending(i, Origins(lines, i + 1, e));
    }
  }

  lemma Ascending(i: nat, rest: seq<nat>)
    requires forall k, l :: 0 <= k < l < |rest| ==> rest[k] < rest[l]
    ensures (forall j :: j in rest ==> i < j) ==>
      forall k, l :: 0 <= k < l < |[i] + rest| ==> ([i] + rest)[k] < ([i] + rest)[l]
  {
    if forall j :: j in rest ==> i < j {
      forall k, l | 0 <= k < l < |[i] + rest| ensures ([i] + rest)[k] < ([i] + rest)[l] {
        assert rest[l - 1] in rest;
      }
    }
  }

  lemma {:induction false} OriginsSplit(lines: seq<Line>, i: nat, m: nat, e: nat)
    requires i <= m <= e <= |lines|
    ensures Origins(lines, i, e) == Origins(lines, i, m) + Origins(lines, m, e)
    decreases m - i
  {
    if i < m {
      OriginsSplit(lines, i + 1, m, e);
    }
  }

  /** The record of a completion: what the line says, as a success that did not time out. */
  ghost predicate TellsCompletion(r: Record, line: Line) {
    && line.event.Complete?
    && r == Record(line.event.done, Seconds(line.event.time.text), true, false)
  }

  /** The seconds of a failed run: those of its last elapsed time, or zero. */
  ghost predicate LastReported(seconds: nat, lines: seq<Line>, i: nat, e: nat)
    requires i < e <= |lines|
  {
    if forall k :: i < k < e ==> !lines[k].event.Elapsed? then seconds == 0
    else exists k ::
      && i < k < e && lines[k].event.Elapsed? && seconds == Seconds(lines[k].event.seen.text)
      && forall l :: k < l < e ==> !lines[l].event.Elapsed?
  }

  /** The record of the unfinished run that starts at line `i`: a failure, which timed out if a deadline
      was exceeded in one of its lines or in the line that starts the next run. */
  ghost predicate TellsFailure(r: Record, lines: seq<Line>, i: nat)
    requires i < |lines|
  {
    var e := RunEnd(lines, i);
    && lines[i].event.Start? && r.path == lines[i].event.path && !r.success
    && LastReported(r.seconds, lines, i, e)
    && (r.timedOut <==> exists k :: i < k <= e && k < |lines| && lines[k].deadline)
  }

  /** Each record tells of its line. */
  ghost predicate Tell(records: seq<Record>, lines: seq<Line>, origins: seq<nat>) {
    && |records| == |origins|
    && forall k :: 0 <= k < |records| ==>
      && origins[k] < |lines|
      && if lines[origins[k]].event.Complete? then TellsCompletion(records[k], lines[origins[k]])
         else TellsFailure(records[k], lines, origins[k])
  }

  lemma TellConcat(a: seq<Record>, b: seq<Record>, lines: seq<Line>, p: seq<nat>, q: seq<nat>)
    requires Tell(a, lines, p) && Tell(b, lines, q)
    ensures Tell(a + b, lines, p + q)
  {
    forall k | 0 <= k < |a + b|
      ensures (p + q)[k] < |lines|
      ensures if lines[(p + q)[k]].event.Complete? then TellsCompletion((a + b)[k], lines[(p + q)[k]])
              else TellsFailure((a + b)[k], lines, (p + q)[k])
    {
      if k < |a| {
        assert (a + b)[k] == a[k] && (p + q)[k] == p[k];
      } else {
        assert (a + b)[k] == b[k - |a|] && (p + q)[k] == q[k - |a|];
      }
    }
  }

  lemma {:induction false} CompletionsTell(lines: seq<Line>, i: nat, e: nat)
    requires i <= e <= |lines| && forall j :: i <= j < e ==> !lines[j].event.Start?
    ensures Tell(Completions(lines[i..e]), lines, Origins(lines, i, e))
    decreases e - i
  {
    if i < e {
      assert lines[i..e][0] == lines[i] && lines[i..e][1..] == lines[i + 1..e];
      CompletionsTell(lines, i + 1, e);
      CompletionsUnfold(lines[i..e]);
      if lines[i].event.Complete? {
        var first := Success(lines[i].event.done, lines[i].event.time);
        assert Tell([first], lines, [i]);
        TellConcat([first], Completions(lines[i + 1..e]), lines, [i], Origins(lines, i + 1, e));
      }
    }
  }

  lemma {:induction false} NoCompletions(lines: seq<Line>, i: nat, e: nat)
    requires i <= e <= |lines|
    ensures (forall j :: i <= j < e ==> !lines[j].event.Complete?) <==> Completions(lines[i..e]) == []
    decreases e - i
  {
    if i < e {
      assert lines[i..e][0] == lines[i] && lines[i..e][1..] == lines[i + 1..e];
      NoCompletions(lines, i + 1, e);
      CompletionsUnfold(lines[i..e]);
    }
  }

  lemma CompletionsUnfold(lines: seq<Line>)
    requires lines != []
    ensures Completions(lines) == match lines[0].event
      case Complete(path, time) => [Success(path, time)] + Completions(lines[1..])
      case _ => Completions(lines[1..])
  {
    assert [] + Completions(lines[1..]) == Completions(lines[1..]);
  }

  lemma {:induction false} LastElapsedIs(before: Option<Duration>, lines: seq<Line>)
    ensures (forall k :: 0 <= k < |lines| ==> !lines[k].event.Elapsed?) ==> LastElapsed(before, lines) == before
    ensures !(forall k :: 0 <= k < |lines| ==> !lines[k].event.Elapsed?) ==>
      exists k ::
        && 0 <= k < |lines| && lines[k].event.Elapsed? && LastElapsed(before, lines) == Some(lines[k].event.seen)
        && forall l :: k < l < |lines| ==> !lines[l].event.Elapsed?
    decreases lines
  {
    if lines != [] {
      var now := if lines[0].event.Elapsed? then Some(lines[0].event.seen) else before;
      var rest := lines[1..];
      LastElapsedIs(now, rest);
      if forall k :: 0 <= k < |rest| ==> !rest[k].event.Elapsed? {
        assert forall k :: 1 <= k < |lines| ==> lines[k] == rest[k - 1];
      } else {
        var k :| 0 <= k < |rest| && rest[k].event.Elapsed? && LastElapsed(now, rest) == Some(rest[k].event.seen)
          && forall l :: k < l < |rest| ==> !rest[l].event.Elapsed?;
        assert lines[k + 1] == rest[k];
        forall l | k + 1 < l < |lines| ensures !lines[l].event.Elapsed? {
          assert lines[l] == rest[l - 1];
        }
      }
    }
  }

  lemma FailureTells(lines: seq<Line>, i: nat)
    requires i < |lines| && Unfinished(lines, i)
    ensures var e := RunEnd(lines, i);
      var body := lines[i + 1..e];
      TellsFailure(FailureRecord(lines[i].event.path, LastElapsed(None, body),
                                 DeadlineIn(body) || (e < |lines| && lines[e].deadline)), lines, i)
  {
    var e := RunEnd(lines, i);
    var body := lines[i + 1..e];
    DurationsAreExact(0, 0, 0);
    assert Decimal(0) == "0" && Quantity(0, 's') == "0s";
    LastElapsedIs(None, body);
    SecondsOfBody(lines, i, e, LastElapsed(None, body));
    DeadlineOfBody(lines, i, e);
  }

  lemma SecondsOfBody(lines: seq<Line>, i: nat, e: nat, last: Option<Duration>)
    requires i < e <= |lines| && last == LastElapsed(None, lines[i + 1..e]) && Seconds("0s") == 0
    ensures LastReported(Seconds(if last.Some? then last.value.text else "0s"), lines, i, e)
  {
    var body := lines[i + 1..e];
    LastElapsedIs(None, body);
    assert forall k :: i < k < e ==> lines[k] == body[k - i - 1];
    if !(forall k :: 0 <= k < |body| ==> !body[k].event.Elapsed?) {
      var k :| 0 <= k < |body| && body[k].event.Elapsed? && last == Some(body[k].event.seen)
        && forall l :: k < l < |body| ==> !body[l].event.Elapsed?;
      assert lines[k + i + 1] == body[k];
    }
  }

  lemma DeadlineOfBody(lines: seq<Line>, i: nat, e: nat)
    requires i < e <= |lines|
    ensures DeadlineIn(lines[i + 1..e]) || (e < |lines| && lines[e].deadline) <==>
      exists k :: i < k <= e && k < |lines| && lines[k].deadline
  {
    var body := lines[i + 1..e];
    if k :| 0 <= k < |body| && body[k].deadline {
      assert lines[k + i + 1].deadline;
    }
    if k :| i < k <= e && k < |lines| && lines[k].deadline {
      assert k < e ==> body[k - i - 1].deadline;
    }
  }

  /** The records of the run that starts at line `i`. */
  ghost function RunAt(lines: seq<Line>, i: nat): seq<Record>
    requires i < |lines| && lines[i].event.Start?
  {
    var e := RunEnd(lines, i);
    RunRecords(Some(lines[i].event.path), false, None, false, lines[i + 1..e], e < |lines| && lines[e].deadline)
  }

  lemma FromStartAt(lines: seq<Line>, i: nat)
    requires i < |lines| && lines[i].event.Start?
    ensures FromStart(lines[i..]) == RunAt(lines, i) + FromStart(lines[RunEnd(lines, i)..])
  {
    var rest, e := lines[i..], RunEnd(lines, i);
    assert rest[1..] == lines[i + 1..];
    assert rest[1..e - i] == lines[i + 1..e] && rest[e - i..] == lines[e..];
  }

  /** From a start on, the records tell of the completions and the unfinished runs. */
  lemma {:induction false} RunsTell(lines: seq<Line>, i: nat)
    requires i <= |lines| && (i < |lines| ==> lines[i].event.Start?)
    ensures Tell(FromStart(lines[i..]), lines, Origins(lines, i, |lines|))
    decreases |lines| - i
  {
    if i < |lines| {
      var e := RunEnd(lines, i);
      RunTells(lines, i);
      RunsTell(lines, e);
      OriginsSplit(lines, i, e, |lines|);
      FromStartAt(lines, i);
      TellConcat(RunAt(lines, i), FromStart(lines[e..]), lines, Origins(lines, i, e), Origins(lines, e, |lines|));
    }
  }

  lemma RunTells(lines: seq<Line>, i: nat)
    requires i < |lines| && lines[i].event.Start?
    ensures Tell(RunAt(lines, i), lines, Origins(lines, i, RunEnd(lines, i)))
  {
    var e := RunEnd(lines, i);
    CompletionsTell(lines, i + 1, e);
    NoCompletions(lines, i + 1, e);
    if Unfinished(lines, i) {
      FailureTells(lines, i);
      assert Origins(lines, i + 1, e) == [] && Origins(lines, i, e) == [i];
    } else {
      assert Origins(lines, i, e) == Origins(lines, i + 1, e);
    }
  }

  /** The records of a log tell, in order, of exactly its completions and its unfinished runs. */
  lemma RecordsTell(lines: seq<Line>)
    ensures Tell(Records(lines), lines, Origins(lines, 0, |lines|))
  {
    var n := Body(lines);
    assert lines[0..n] == lines[..n];
    CompletionsTell(lines, 0, n);
    RunsTell(lines, n);
    OriginsSplit(lines, 0, n, |lines|);
    TellConcat(Completions(lines[..n]), FromStart(lines[n..]), lines, Origins(lines, 0, n), Origins(lines, n, |lines|));
  }

  /** `process_terraform_logs`, line by line. */
  method ProcessLogs(lines: seq<Line>) returns (results: seq<Record>)
    ensures results == Records(lines)
    ensures Tell(results, lines, Origins(lines, 0, |lines|))
  {
    results := [];
    var path: Option<ModulePath>, elapsed: Option<Duration>, completed, timedOut := None, None, false, false;
    for i := 0 to |lines|
      invariant Collected(FRESH, lines) == results + Collected(State(path, elapsed, completed, timedOut), lines[i..])
    {
      var line := lines[i];
      ghost var s, before := State(path, elapsed, completed, timedOut), results;
      OneMore(results, s, lines[i..]);
      assert lines[i..][0] == line && lines[i..][1..] == lines[i + 1..];
      if line.deadline {
        timedOut := true;
      }
      if line.event.Start? {
        if path.Some? && !completed {
          results := results + [FailureRecord(path.value, elapsed, timedOut)];
        }
        path, elapsed, completed, timedOut := Some(line.event.path), None, false, false;
      } else if line.event.Complete? {
        completed := true;
        var seconds := TimeToSeconds(line.event.time.text);
        results := results + [Record(line.event.done, seconds, true, false)];
      } else if line.event.Elapsed? {
        elapsed := Some(line.event.seen);
      }
      assert State(path, elapsed, completed, timedOut) == Step(s, line).0 && results == before + Step(s, line).1;
    }
    if path.Some? && !completed {
      results := results + [FailureRecord(path.value, elapsed, timedOut)];
    }
    ProcessorSegments(FRESH, lines);
    RecordsTell(lines);
  }

  // ---- Properties of the segmentation ----

  function Starts(lines: seq<Line>): nat {
    if lines == [] then 0 else (if lines[0].event.Start? then 1 else 0) + Starts(lines[1..])
  }

  lemma {:induction false} NoStartsInBody(lines: seq<Line>)
    ensures Starts(lines) == Starts(lines[Body(lines)..])
  {
    if lines != [] && !lines[0].event.Start? {
      NoStartsInBody(lines[1..]);
      assert lines[Body(lines)..] == lines[1..][Body(lines[1..])..];
    } else {
      assert lines[Body(lines)..] == lines;
    }
  }

  /** Every start yields at least one record. */
  lemma {:induction false} EveryStartIsRecorded(lines: seq<Line>)
    requires lines != [] ==> lines[0].event.Start?
    ensures |FromStart(lines)| >= Starts(lines)
    decreases |lines|
  {
    if lines != [] {
      var n := Body(lines[1..]) + 1;
      NoStartsInBody(lines[1..]);
      assert lines[1..][n - 1..] == lines[n..];
      EveryStartIsRecorded(lines[n..]);
    }
  }

  lemma {:induction false} StartsAre(lines: seq<Line>, k: nat)
    requires k <= |lines|
    ensures Starts(lines[k..]) == |set i | k <= i < |lines| && lines[i].event.Start?|
    decreases |lines| - k
  {
    var indices := set i | k <= i < |lines| && lines[i].event.Start?;
    if k < |lines| {
      StartsAre(lines, k + 1);
      var later := set i | k + 1 <= i < |lines| && lines[i].event.Start?;
      assert lines[k..][1..] == lines[k + 1..];
      assert indices == if lines[k].event.Start? then {k} + later else later;
    } else {
      assert indices == {};
    }
  }

  lemma LogsRecordEveryStart(lines: seq<Line>)
    ensures |Records(lines)| >= |set i | 0 <= i < |lines| && lines[i].event.Start?|
  {
    StartsAre(lines, 0);
    assert lines[0..] == lines;
    NoStartsInBody(lines);
    EveryStartIsRecorded(lines[Body(lines)..]);
  }

  lemma {:induction false} ProcessingSplits(s: State, a: seq<Line>, b: seq<Line>)
    ensures Emitted(s, a + b) == Emitted(s, a) + Emitted(After(s, a), b)
    ensures After(s, a + b) == After(After(s, a), b)
    decreases a
  {
    if a == [] {
      assert a + b == b;
    } else {
      assert (a + b)[1..] == a[1..] + b;
      ProcessingSplits(Step(s, a[0]).0, a[1..], b);
    }
  }

  /** The lines after the last start, if there is a start. */
  function LastBody(lines: seq<Line>): Option<seq<Line>> {
    if lines == [] then None
    else
      var n := |lines| - 1;
      if lines[n].event.Start? then Some([])
      else match LastBody(lines[..n])
        case None => None
        case Some(body) => Some(body + [lines[n]])
  }

  predicate CompletionIn(lines: seq<Line>) {
    exists i :: 0 <= i < |lines| && lines[i].event.Complete?
  }

  /** A log ends in a run that has neither completed nor met a deadline. */
  predicate EndsOpen(lines: seq<Line>) {
    var body := LastBody(lines);
    body.Some? && !CompletionIn(body.value) && !DeadlineIn(body.value)
  }

  lemma OneMoreLine(body: seq<Line>, line: Line)
    ensures CompletionIn(body + [line]) <==> CompletionIn(body) || line.event.Complete?
    ensures DeadlineIn(body + [line]) <==> DeadlineIn(body) || line.deadline
  {
    var longer := body + [line];
    assert longer[|body|] == line;
    if i :| 0 <= i < |body| && body[i].event.Complete? {
      assert longer[i].event.Complete?;
    }
    if i :| 0 <= i < |body| && body[i].deadline {
      assert longer[i].deadline;
    }
  }

  /** What the processor knows about the last run is what its lines say. */
  lemma {:induction false} StateOfLastRun(lines: seq<Line>)
    ensures var s, body := After(FRESH, lines), LastBody(lines);
      && (s.path.Some? <==> body.Some?)
      && (body.Some? ==> s.completed == CompletionIn(body.value) && s.timedOut == DeadlineIn(body.value))
  {
    if lines != [] {
      var n := |lines| - 1;
      var init, body := lines[..n], LastBody(lines[..n]);
      StateOfLastRun(init);
      assert lines == init + [lines[n]];
      ProcessingSplits(FRESH, init, [lines[n]]);
      assert [lines[n]][1..] == [];
      assert After(FRESH, lines) == Step(After(FRESH, init), lines[n]).0;
      if body.Some? {
        OneMoreLine(body.value, lines[n]);
      }
    }
  }

  /** Appending a log that begins with a start appends its records, except that a deadline on that
      first line also marks a run left open before it: the two differ exactly when there is such a
      deadline and such a run. */
  lemma LogsConcatenate(a: seq<Line>, b: seq<Line>)
    requires b != [] && b[0].event.Start?
    ensures Records(a + b) == Records(a) + Records(b) <==> !(b[0].deadline && EndsOpen(a))
  {
    var open := After(FRESH, a);
    StateOfLastRun(a);
    ProcessorSegments(FRESH, a);
    ProcessorSegments(FRESH, b);
    ProcessorSegments(FRESH, a + b);
    ProcessingSplits(FRESH, a, b);
    var late := Flush(open.(timedOut := open.timedOut || b[0].deadline));
    StartForgets(open, b);
    StartForgets(FRESH, b);
    SameAround(Emitted(FRESH, a), late, Flush(open), Emitted(FRESH, b), Flush(After(FRESH, b)));
  }

  /** The smallest such logs: one start each, the second with a deadline, which is then reported for
      the first run as well. */
  lemma DeadlineLeaksBack(p: ModulePath, q: ModulePath)
    ensures var a, b := [Line(Start(p), false)], [Line(Start(q), true)];
      && Records(a) == [FailureRecord(p, None, false)]
      && Records(a + b) == [FailureRecord(p, None, true)] + Records(b)
  {
    var a, b := [Line(Start(p), false)], [Line(Start(q), true)];
    ProcessorSegments(FRESH, a);
    ProcessorSegments(FRESH, b);
    ProcessorSegments(FRESH, a + b);
    assert a[1..] == [] && b[1..] == [] && (a + b)[1..] == b;
    var s := State(Some(p), None, false, false);
    assert After(FRESH, a) == After(s, []) == s && Emitted(FRESH, a) == [] + Emitted(s, []);
    assert Records(a) == Flush(s);
    StartForgets(s, b);
  }

  /** A start line flushes the open run and makes the processor forget everything else. */
  lemma StartForgets(s: State, b: seq<Line>)
    requires b != [] && b[0].event.Start?
    ensures Emitted(s, b) == Flush(s.(timedOut := s.timedOut || b[0].deadline)) + Emitted(FRESH, b)
    ensures After(s, b) == After(FRESH, b)
  {
    var begun, late := Step(FRESH, b[0]).0, Flush(s.(timedOut := s.timedOut || b[0].deadline));
    assert Step(s, b[0]).0 == begun;
    assert Emitted(s, b) == late + Emitted(begun, b[1..]);
    assert Emitted(FRESH, b) == [] + Emitted(begun, b[1..]) == Emitted(begun, b[1..]);
  }

  lemma SameAround(front: seq<Record>, x: seq<Record>, y: seq<Record>, middle: seq<Record>, back: seq<Record>)
    requires |x| == |y|
    ensures front + (x + middle) + back == front + y + (middle + back) <==> x == y
  {
    var l, r := front + (x + middle) + back, front + y + (middle + back);
    if l == r {
      assert x == l[|front|..|front| + |x|];
      assert y == r[|front|..|front| + |y|];
    }
  }
}
