/** Reading durations back from the log that two monitors share. */
module CsiResults {
  import opened Common
  import opened Text
  import opened CsiMonitor

  /** The characters `str.splitlines` breaks a text at. */
  predicate IsLineBreak(c: char) {
    '\n' <= c <= '\r' || '\U{1C}' <= c <= '\U{1E}' || c == '\U{85}' || c == '\U{2028}' || c == '\U{2029}'
  }

  /** The characters `str.strip` removes. */
  predicate IsSpace(c: char) {
    IsLineBreak(c) || c in {' ', '\t', '\U{1F}', '\U{A0}', '\U{1680}', '\U{202F}', '\U{205F}', '\U{3000}'} ||
    '\U{2000}' <= c <= '\U{200A}'
  }

  /** The characters before the first line break, or all of them. */
  function LineLength(s: string): (n: nat)
    ensures n <= |s| && (n < |s| ==> IsLineBreak(s[n]))
    ensures forall i :: 0 <= i < n ==> !IsLineBreak(s[i])
  {
    if s == "" || IsLineBreak(s[0]) then 0 else 1 + LineLength(s[1..])
  }

  /** Python's `splitlines`: a final line break does not start another line. */
  function SplitLines(s: string): seq<string> {
    var n := LineLength(s);
    if s == "" then []
    else if n == |s| then [s]
    else
      var m := if s[n] == '\r' && n + 1 < |s| && s[n + 1] == '\n' then n + 2 else n + 1;
      [s[..n]] + SplitLines(s[m..])
  }

  function StripLeft(s: string): string {
    if s != "" && IsSpace(s[0]) then StripLeft(s[1..]) else s
  }

  function StripRight(s: string): string {
    if s != "" && IsSpace(s[|s| - 1]) then StripRight(s[..|s| - 1]) else s
  }

  function Strip(s: string): string {
    StripRight(StripLeft(s))
  }

  predicate Blank(s: string) {
    forall i :: 0 <= i < |s| ==> IsSpace(s[i])
  }

  /** Stripping removes blanks at both ends, and leaves none there. */
  lemma StripIs(s: string) returns (left: string, right: string)
    ensures s == left + Strip(s) + right && Blank(left) && Blank(right) && Trimmed(Strip(s))
  {
    left := StripLeftIs(s);
    right := StripRightIs(StripLeft(s));
    var t := Strip(s);
    assert t != "" ==> t[0] == StripLeft(s)[0];
  }

  lemma {:induction false} StripLeftIs(s: string) returns (left: string)
    ensures s == left + StripLeft(s) && Blank(left) && (StripLeft(s) != "" ==> !IsSpace(StripLeft(s)[0]))
  {
    left := "";
    if s != "" && IsSpace(s[0]) {
      left := StripLeftIs(s[1..]);
      left := [s[0]] + left;
    }
  }

  lemma {:induction false} StripRightIs(s: string) returns (right: string)
    ensures s == StripRight(s) + right && Blank(right)
    ensures StripRight(s) != "" ==> !IsSpace(StripRight(s)[|StripRight(s)| - 1])
  {
    right := "";
    if s != "" && IsSpace(s[|s| - 1]) {
      var n := |s| - 1;
      right := StripRightIs(s[..n]);
      assert s == s[..n] + [s[n]];
      right := right + [s[n]];
    }
  }

  /** The characters before the first `c`, or all of them. */
  function UpTo(s: string, c: char): (n: nat)
    ensures n <= |s| && c !in s[..n] && (n < |s| ==> s[n] == c)
  {
    if s == "" || s[0] == c then 0
    else
      assert s[..1 + UpTo(s[1..], c)] == [s[0]] + s[1..][..UpTo(s[1..], c)];
      1 + UpTo(s[1..], c)
  }

  function Underscored(s: string): (r: string)
    ensures |r| == |s|
    ensures forall i :: 0 <= i < |s| ==> r[i] == if s[i] == ' ' then '_' else s[i]
  {
    seq(|s|, i requires 0 <= i < |s| => if s[i] == ' ' then '_' else s[i])
  }

  /** The line `log_duration` writes. */
  function LineOf(e: Entry): string {
    e.description.text + ": " + Decimal(e.seconds)
  }

  /** The key an entry is collected under, and its value. */
  function KeyOf(e: Entry): Label {
    Label(Underscored(e.description.text))
  }

  function ValueOf(e: Entry): Label {
    Label(Decimal(e.seconds))
  }

  /** The key and the value of a line, if it has a colon. */
  function ParseLine(line: string): Option<(Label, Label)> {
    var n := UpTo(line, ':');
    if n == |line| then None else Some((Label(Underscored(Strip(line[..n]))), Label(Strip(line[n + 1..]))))
  }

  /** The metrics table after reading `lines`: a later line for the same key wins. */
  function Metrics(lines: seq<string>): map<Label, Label> {
    if lines == [] then map[]
    else
      var before := Metrics(lines[..|lines| - 1]);
      match ParseLine(lines[|lines| - 1])
      case Some((key, value)) => before[key := value]
      case None => before
  }

  /** A line counts from its first colon on: what comes before names the metric, what follows is its value. */
  lemma ParseLineIs(a: string, b: string)
    requires ':' !in a
    ensures ParseLine(a) == None
    ensures ParseLine(a + [':'] + b) == Some((Label(Underscored(Strip(a))), Label(Strip(b))))
  {
    ParseAround(a, b);
  }

  /** A metric has the value of the last line that names it. */
  lemma {:induction false} LastLineWins(lines: seq<string>, i: nat)
    requires i < |lines| && ParseLine(lines[i]).Some?
    requires forall j :: i < j < |lines| && ParseLine(lines[j]).Some? ==>
      ParseLine(lines[j]).value.0 != ParseLine(lines[i]).value.0
    ensures var (key, value) := ParseLine(lines[i]).value;
      key in Metrics(lines) && Metrics(lines)[key] == value
  {
    var n := |lines| - 1;
    if i < n {
      LastLineWins(lines[..n], i);
    }
  }

  /** Only lines make metrics. */
  lemma {:induction false} MetricsAreLines(lines: seq<string>, key: Label) returns (i: nat)
    requires key in Metrics(lines)
    ensures i < |lines| && ParseLine(lines[i]).Some? && ParseLine(lines[i]).value.0 == key
  {
    i := |lines| - 1;
    if ParseLine(lines[i]).None? || ParseLine(lines[i]).value.0 != key {
      i := MetricsAreLines(lines[..i], key);
    }
  }

  /** The loop of `collect_attach_detach` over the lines of the file. */
  method Collect(content: string) returns (metrics: map<Label, Label>)
    ensures metrics == Metrics(SplitLines(content))
  {
    var lines := SplitLines(content);
    metrics := map[];
    for i := 0 to |lines|
      invariant metrics == Metrics(lines[..i])
    {
      assert lines[..i + 1][..i] == lines[..i];
      var n := UpTo(lines[i], ':');
      if n < |lines[i]| {
        metrics := metrics[Label(Underscored(Strip(lines[i][..n]))) := Label(Strip(lines[i][n + 1..]))];
      }
    }
    assert lines[..|lines|] == lines;
  }

  predicate Trimmed(s: string) {
    s != "" ==> !IsSpace(s[0]) && !IsSpace(s[|s| - 1])
  }

  /** A description that survives the trip through the log. */
  predicate Loggable(e: Entry) {
    ':' !in e.description.text && Trimmed(e.description.text) && OneLine(e.description.text)
  }

  predicate OneLine(s: string) {
    forall i :: 0 <= i < |s| ==> !IsLineBreak(s[i])
  }

  lemma {:induction false} UpToFree(a: string, b: string, c: char)
    requires c !in a
    ensures UpTo(a + [c] + b, c) == |a|
  {
    var s := a + [c] + b;
    if a != "" {
      assert s[0] == a[0] && a[0] in a && s[1..] == a[1..] + [c] + b;
      UpToFree(a[1..], b, c);
    }
  }

  lemma ParseAround(a: string, b: string)
    requires ':' !in a
    ensures ParseLine(a + [':'] + b) == Some((Label(Underscored(Strip(a))), Label(Strip(b))))
  {
    var line := a + [':'] + b;
    UpToFree(a, b, ':');
    assert line[..|a|] == a && line[|a| + 1..] == b;
  }

  lemma StripIndented(s: string)
    requires Trimmed(s)
    ensures Strip(s) == s && Strip([' '] + s) == s
  {
    assert ([' '] + s)[1..] == s;
    assert StripLeft(s) == s;
  }

  lemma NumeralsAreTrimmed(n: nat)
    ensures Trimmed(Decimal(n))
  {
    var s := Decimal(n);
    assert IsDigit(s[0]) && IsDigit(s[|s| - 1]);
  }

  /** Parsing undoes logging. */
  lemma ParseOfLine(e: Entry)
    requires Loggable(e)
    ensures ParseLine(LineOf(e)) == Some((KeyOf(e), ValueOf(e)))
  {
    var number := Decimal(e.seconds);
    assert LineOf(e) == e.description.text + [':'] + ([' '] + number);
    ParseAround(e.description.text, [' '] + number);
    StripIndented(e.description.text);
    NumeralsAreTrimmed(e.seconds);
    StripIndented(number);
  }

  function LinesOf(log: seq<Entry>): seq<string> {
    if log == [] then [] else LinesOf(log[..|log| - 1]) + [LineOf(log[|log| - 1])]
  }

  /** The text of the file: every line is ended by a line feed. */
  function Content(log: seq<Entry>): string {
    if log == [] then "" else LineOf(log[0]) + ['\n'] + Content(log[1..])
  }

  lemma {:induction false} LinesConcat(log: seq<Entry>)
    requires log != []
    ensures LinesOf(log) == [LineOf(log[0])] + LinesOf(log[1..])
  {
    if |log| > 1 {
      var n := |log| - 1;
      LinesConcat(log[..n]);
      assert log[1..][..n - 1] == log[..n][1..];
    }
  }

  /** Splitting the text of the file at its line breaks gives the lines that were written. */
  lemma {:induction false} SplitLinesOfContent(log: seq<Entry>)
    requires forall e :: e in log ==> Loggable(e)
    ensures SplitLines(Content(log)) == LinesOf(log)
  {
    if log != [] {
      var s, line := Content(log), LineOf(log[0]);
      assert Loggable(log[0]);
      assert s[..|line|] == line && s[|line|] == '\n' && s[|line| + 1..] == Content(log[1..]);
      assert forall i :: 0 <= i < |line| ==> s[i] == line[i];
      assert LineLength(s) == |line|;
      SplitLinesOfContent(log[1..]);
      LinesConcat(log);
    }
  }

  /** `log` is some interleaving of whole lines written by two monitors. */
  ghost predicate Interleaves(log: seq<Entry>, a: seq<Entry>, b: seq<Entry>) {
    if log == [] then a == [] && b == []
    else
      var n := |log| - 1;
      (a != [] && a[|a| - 1] == log[n] && Interleaves(log[..n], a[..|a| - 1], b)) ||
      (b != [] && b[|b| - 1] == log[n] && Interleaves(log[..n], a, b[..|b| - 1]))
  }

  lemma {:induction false} InterleavingKeepsEntries(log: seq<Entry>, a: seq<Entry>, b: seq<Entry>)
    requires Interleaves(log, a, b)
    ensures multiset(log) == multiset(a) + multiset(b)
  {
    if log != [] {
      var n := |log| - 1;
      assert log == log[..n] + [log[n]];
      if a != [] && a[|a| - 1] == log[n] && Interleaves(log[..n], a[..|a| - 1], b) {
        InterleavingKeepsEntries(log[..n], a[..|a| - 1], b);
        assert a == a[..|a| - 1] + [log[n]];
      } else {
        InterleavingKeepsEntries(log[..n], a, b[..|b| - 1]);
        assert b == b[..|b| - 1] + [log[n]];
      }
    }
  }

  /** No two entries would be collected under the same key. */
  ghost predicate KeysDiffer(log: seq<Entry>) {
    forall i, j :: 0 <= i < j < |log| ==> KeyOf(log[i]) != KeyOf(log[j])
  }

  /** The table holds exactly the entries of the log. */
  ghost predicate Recovers(metrics: map<Label, Label>, log: seq<Entry>) {
    && (forall i :: 0 <= i < |log| ==>
      var key := KeyOf(log[i]);
      key in metrics && metrics[key] == ValueOf(log[i]))
    && (forall key :: key in metrics ==> exists i :: 0 <= i < |log| && KeyOf(log[i]) == key)
  }

  lemma {:induction false} MetricsRecoverLog(log: seq<Entry>)
    requires (forall e :: e in log ==> Loggable(e)) && KeysDiffer(log)
    ensures Recovers(Metrics(LinesOf(log)), log)
  {
    if log != [] {
      var n := |log| - 1;
      var init := log[..n];
      MetricsRecoverLog(init);
      ParseOfLine(log[n]);
      assert LinesOf(log)[..|LinesOf(log)| - 1] == LinesOf(init);
      OneMore(Metrics(LinesOf(init)), log);
    }
  }

  lemma OneMore(before: map<Label, Label>, log: seq<Entry>)
    requires log != [] && KeysDiffer(log) && Recovers(before, log[..|log| - 1])
    ensures var last := log[|log| - 1];
      Recovers(before[KeyOf(last) := ValueOf(last)], log)
  {
    var n := |log| - 1;
    var init, after := log[..n], before[KeyOf(log[n]) := ValueOf(log[n])];
    forall i | 0 <= i < |log|
      ensures KeyOf(log[i]) in after && after[KeyOf(log[i])] == ValueOf(log[i])
    {
      if i < n {
        assert init[i] == log[i];
      }
    }
    forall key | key in after
      ensures exists i :: 0 <= i < |log| && KeyOf(log[i]) == key
    {
      if key != KeyOf(log[n]) {
        var i :| 0 <= i < |init| && KeyOf(init[i]) == key;
        assert log[i] == init[i];
      }
    }
  }

  /** Collecting undoes logging under every interleaving of the two monitors: each description is
      found again, with its own duration, and nothing else is. */
  lemma CollectUndoesLog(log: seq<Entry>, a: seq<Entry>, b: seq<Entry>)
    requires Interleaves(log, a, b)
    requires (forall e :: e in a ==> Loggable(e)) && (forall e :: e in b ==> Loggable(e))
    requires KeysDiffer(a + b)
    ensures Recovers(Metrics(SplitLines(Content(log))), a + b)
  {
    InterleavingKeepsEntries(log, a, b);
    assert multiset(a + b) == multiset(log);
    forall e | e in log ensures Loggable(e) {
      assert e in multiset(log);
    }
    KeysDifferInAnyOrder(a + b, log);
    SplitLinesOfContent(log);
    MetricsRecoverLog(log);
    RecoversInAnyOrder(Metrics(LinesOf(log)), log, a + b);
  }

  lemma RecoversInAnyOrder(metrics: map<Label, Label>, x: seq<Entry>, y: seq<Entry>)
    requires Recovers(metrics, x) && multiset(x) == multiset(y)
    ensures Recovers(metrics, y)
  {
    SameEntries(x, y);
    SameEntries(y, x);
    forall i | 0 <= i < |y|
      ensures KeyOf(y[i]) in metrics && metrics[KeyOf(y[i])] == ValueOf(y[i])
    {
      var j :| 0 <= j < |x| && x[j] == y[i];
    }
    forall key | key in metrics
      ensures exists i :: 0 <= i < |y| && KeyOf(y[i]) == key
    {
      var i :| 0 <= i < |x| && KeyOf(x[i]) == key;
      var j :| 0 <= j < |y| && y[j] == x[i];
    }
  }

  lemma SameEntries(x: seq<Entry>, y: seq<Entry>)
    requires multiset(x) == multiset(y)
    ensures forall i :: 0 <= i < |x| ==> x[i] in y
  {
    forall i | 0 <= i < |x| ensures x[i] in y {
      assert x[i] in multiset(x);
    }
  }

  lemma KeysDifferInAnyOrder(x: seq<Entry>, y: seq<Entry>)
    requires multiset(x) == multiset(y) && KeysDiffer(x)
    ensures KeysDiffer(y)
  {
    forall i, j | 0 <= i < j < |y|
      ensures KeyOf(y[i]) != KeyOf(y[j])
    {
      SameEntries(y, x);
      if y[i] == y[j] {
        Twice(y, i, j);
        OnlyOnce(x, y[i]);
      }
    }
  }

  lemma Twice(y: seq<Entry>, i: nat, j: nat)
    requires i < j < |y| && y[i] == y[j]
    ensures multiset(y)[y[i]] >= 2
  {
    assert y == y[..i] + [y[i]] + y[i + 1..j] + [y[j]] + y[j + 1..];
  }

  lemma {:induction false} OnlyOnce(x: seq<Entry>, e: Entry)
    requires KeysDiffer(x)
    ensures multiset(x)[e] <= 1
  {
    if x != [] {
      var n := |x| - 1;
      OnlyOnce(x[..n], e);
      assert x == x[..n] + [x[n]];
      if x[n] == e {
        assert e !in x[..n];
      }
    }
  }

  // ---- The three monitors of a run ----

  function NameOf(i: nat): string {
    if i == 0 then "p50" else if i == 1 then "p90" else if i == 2 then "p99" else "p100"
  }

  function Monitor(k: nat): string {
    if k == 0 then "PV creation" else if k == 1 then "PV attachment" else "PV detachment"
  }

  /** What monitor `k` has logged so far: its thresholds in order. */
  ghost predicate LoggedBy(k: nat, log: seq<Entry>) {
    k < 3 && |log| <= 4 && forall i :: 0 <= i < |log| ==> log[i].description == DescriptionOf(k, i)
  }

  function DescriptionOf(k: nat, i: nat): Label {
    Label(Monitor(k) + " " + NameOf(i))
  }

  /** The entries that `monitor_thresholds` appends in `execute_attach_detach` are of this form. */
  lemma MonitorsLog(k: nat, disks: int, polls: seq<Poll>, before: seq<Entry>, after: seq<Entry>, hits: seq<nat>,
                    start: int)
    requires k < 3
    requires Logged(before, after, Label(Monitor(k)), polls,
      if k < 2 then AttachThresholds(disks) else DetachThresholds(disks), hits, start)
    ensures LoggedBy(k, after[|before|..]) && |after[|before|..]| == |hits|
    ensures forall i :: 0 <= i < |hits| ==>
      after[|before| + i].description.text ==
        ["PV creation", "PV attachment", "PV detachment"][k] + " " + ["p50", "p90", "p99", "p100"][i]
  {
    var thresholds := if k < 2 then AttachThresholds(disks) else DetachThresholds(disks);
    assert forall i :: 0 <= i < 4 ==> thresholds[i].name == Label(NameOf(i));
    forall i | 0 <= i < |hits|
      ensures after[|before|..][i].description == DescriptionOf(k, i)
    {
      assert after[|before| + i].description == Describe(Label(Monitor(k)), thresholds[i]);
    }
  }

  predicate Plain(s: string) {
    ':' !in s && OneLine(s)
  }

  lemma NamesArePlain(k: nat, i: nat)
    requires k < 3 && i < 4
    ensures Plain(Monitor(k)) && Monitor(k)[0] == 'P'
    ensures Plain(NameOf(i)) && IsDigit(NameOf(i)[|NameOf(i)| - 1])
  {
  }

  /** None of these descriptions is refused or mangled. */
  lemma DescriptionsAreLoggable(k: nat, i: nat)
    requires k < 3 && i < 4
    ensures var text := DescriptionOf(k, i).text; Plain(text) && Trimmed(text)
  {
    NamesArePlain(k, i);
    var a, b := Monitor(k), NameOf(i);
    var text := DescriptionOf(k, i).text;
    assert text == a + " " + b;
    forall j | 0 <= j < |text| ensures text[j] != ':' && !IsLineBreak(text[j]) {
      assert text[j] == if j < |a| then a[j] else if j == |a| then ' ' else b[j - |a| - 1];
    }
  }

  lemma KeysOfMonitors(k: nat, i: nat, l: nat, j: nat)
    requires k < 3 && l < 3 && i < 4 && j < 4 && (k != l || i != j)
    ensures Underscored(DescriptionOf(k, i).text) != Underscored(DescriptionOf(l, j).text)
  {
    var s, t := DescriptionOf(k, i).text, DescriptionOf(l, j).text;
    var n := |Monitor(k)|;
    if k != l {
      assert Underscored(s)[3] != Underscored(t)[3];
    } else if i == 3 || j == 3 {
      assert |s| != |t|;
    } else if i == 0 || j == 0 {
      assert Underscored(s)[n + 2] != Underscored(t)[n + 2];
    } else {
      assert Underscored(s)[n + 3] != Underscored(t)[n + 3];
    }
  }

  lemma LogsOfMonitors(k: nat, a: seq<Entry>, l: nat, b: seq<Entry>)
    requires LoggedBy(k, a) && LoggedBy(l, b) && k != l
    ensures KeysDiffer(a) && forall i, j :: 0 <= i < |a| && 0 <= j < |b| ==> KeyOf(a[i]) != KeyOf(b[j])
  {
    forall i, j | 0 <= i < j < |a| ensures KeyOf(a[i]) != KeyOf(a[j]) {
      KeysOfMonitors(k, i, k, j);
    }
    forall i, j | 0 <= i < |a| && 0 <= j < |b| ensures KeyOf(a[i]) != KeyOf(b[j]) {
      KeysOfMonitors(k, i, l, j);
    }
  }

  /** Whatever the disks do and however the first two monitors interleave: the results file of a run
      holds exactly the durations the three monitors logged. */
  lemma AttachDetachIsRecovered(log: seq<Entry>, creation: seq<Entry>, attachment: seq<Entry>, detachment: seq<Entry>)
    requires LoggedBy(0, creation) && LoggedBy(1, attachment) && LoggedBy(2, detachment)
    requires Interleaves(log, creation, attachment)
    ensures Recovers(Metrics(SplitLines(Content(log + detachment))), creation + attachment + detachment)
  {
    var all, file := creation + attachment + detachment, log + detachment;
    LogsOfMonitors(0, creation, 1, attachment);
    LogsOfMonitors(1, attachment, 2, detachment);
    LogsOfMonitors(2, detachment, 0, creation);
    assert KeysDiffer(all);
    InterleavingKeepsEntries(log, creation, attachment);
    assert multiset(file) == multiset(all);
    forall e | e in file ensures Loggable(e) {
      assert e in multiset(all);
      assert e in creation || e in attachment || e in detachment;
      LoggedIsLoggable(0, creation, e);
      LoggedIsLoggable(1, attachment, e);
      LoggedIsLoggable(2, detachment, e);
    }
    KeysDifferInAnyOrder(all, file);
    SplitLinesOfContent(file);
    MetricsRecoverLog(file);
    RecoversInAnyOrder(Metrics(LinesOf(file)), file, all);
  }

  lemma LoggedIsLoggable(k: nat, log: seq<Entry>, e: Entry)
    requires LoggedBy(k, log)
    ensures e in log ==> Loggable(e)
  {
    if e in log {
      var i :| 0 <= i < |log| && log[i] == e;
      DescriptionsAreLoggable(k, i);
    }
  }
}
