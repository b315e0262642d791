/** Recognising clusterloader2 report files by name. */
module ReportName {
  import opened Text

  /** What a name yields; `MissingPart` is the IndexError of a name with too few parts. */
  datatype Parsed = Unknown | Named(measurement: string, group: string) | MissingPart

  const PROM_QUERY: nat := 6
  const KNOWN_PREFIXES: nat := 12

  const POD_STARTUP := "PodStartupLatency_" + "PodStartupLatency_"

  /** The known prefixes, in the order in which they are tried. */
  function Prefix(k: nat): string {
    match k
    case 0 => POD_STARTUP
    case 1 => "Stateful" + POD_STARTUP
    case 2 => "Stateless" + POD_STARTUP
    case 3 => "APIResponsivenessPrometheus"
    case 4 => "InClusterNetworkLatency"
    case 5 => "NetworkProgrammingLatency"
    case 6 => "GenericPrometheusQuery"
    case 7 => "JobLifecycleLatency"
    case 8 => "ResourceUsageSummary"
    case 9 => "NetworkPolicySoakMeasurement"
    case 10 => "SchedulingThroughput" + "Prometheus"
    case _ => "SchedulingThroughput"
  }

  /** The first known prefix of `s` from the `k`-th on, or `KNOWN_PREFIXES`. */
  function FirstMatch(s: string, k: nat): (m: nat)
    requires k <= KNOWN_PREFIXES
    ensures k <= m <= KNOWN_PREFIXES
    ensures m < KNOWN_PREFIXES ==> Prefix(m) <= s
    ensures forall j :: k <= j < m ==> !(Prefix(j) <= s)
    decreases KNOWN_PREFIXES - k
  {
    if k == KNOWN_PREFIXES || Prefix(k) <= s then k else FirstMatch(s, k + 1)
  }

  /** `parts[i]` of a name split at its underscores. */
  function PartOf(s: string, measurement: string, i: nat): Parsed {
    var parts := Split(s, '_');
    if i < |parts| then Named(measurement, parts[i]) else MissingPart
  }

  /** The names that are not queries: the prefix is the measurement, and the group comes next. */
  function Grouped(s: string, k: nat): Parsed {
    if k < 3 then PartOf(s, Prefix(k)[..|Prefix(k)| - 1], 2) else PartOf(s, Prefix(k), 1)
  }

  /** Python's `rstrip("_")`. */
  function StripUnderscores(s: string): string {
    if s != "" && s[|s| - 1] == '_' then StripUnderscores(s[..|s| - 1]) else s
  }

  /** The last part, not counting the first, that looks like a timestamp; 0 if there is none. */
  function TimestampAt(parts: seq<string>, i: nat): (t: nat)
    requires i < |parts|
    ensures t <= i && (t > 0 ==> 'T' in parts[t])
    ensures forall j :: t < j <= i ==> 'T' !in parts[j]
  {
    if i == 0 || 'T' in parts[i] then i else TimestampAt(parts, i - 1)
  }

  function ParseQuery(remainder: string): Parsed {
    var parts := Split(remainder, '_');
    var t := TimestampAt(parts, |parts| - 1);
    if t == 0 then Unknown else Named(StripUnderscores(Join(parts[..t - 1], '_')), parts[t - 1])
  }

  /** What `get_measurement` makes of a file name. */
  function Measurement(s: string): Parsed {
    MeasurementBy(s, FirstMatch(s, 0))
  }

  /** What the branch of the `k`-th prefix makes of it. */
  function MeasurementBy(s: string, k: nat): Parsed {
    if k == KNOWN_PREFIXES then Unknown
    else if k == PROM_QUERY then
      var n := |Prefix(PROM_QUERY)|;
      if |s| > n && (s[n] == ' ' || s[n] == '_') then ParseQuery(s[n + 1..]) else Unknown
    else Grouped(s, k)
  }

  method FindPrefix(s: string) returns (k: nat)
    ensures k == FirstMatch(s, 0)
  {
    k := 0;
    while k < KNOWN_PREFIXES && !(Prefix(k) <= s)
      invariant k <= KNOWN_PREFIXES && FirstMatch(s, 0) == FirstMatch(s, k)
    {
      k := k + 1;
    }
  }

  /** The part of `get_measurement` that follows a query prefix. */
  method ParseQueryName(remainder: string) returns (r: Parsed)
    ensures r == ParseQuery(remainder)
  {
    var parts := Split(remainder, '_');
    var i := |parts| - 1;
    while i > 0 && 'T' !in parts[i]
      invariant 0 <= i < |parts| && TimestampAt(parts, |parts| - 1) == TimestampAt(parts, i)
    {
      i := i - 1;
    }
    r := if i == 0 then Unknown else Named(StripUnderscores(Join(parts[..i - 1], '_')), parts[i - 1]);
  }

  /** `get_measurement`, with its search loops. */
  method GetMeasurement(s: string) returns (r: Parsed)
    ensures r == Measurement(s)
  {
    var k := FindPrefix(s);
    if k == KNOWN_PREFIXES {
      r := Unknown;
    } else if k == PROM_QUERY {
      var n := |Prefix(PROM_QUERY)|;
      if |s| > n && (s[n] == ' ' || s[n] == '_') {
        r := ParseQueryName(s[n + 1..]);
      } else {
        r := Unknown;
      }
    } else {
      r := Grouped(s, k);
    }
  }

  // ---- Other reports: the group is the part after the measurement ----

  /** Underscores at the end are removed, and nothing else. */
  lemma {:induction false} StripUnderscoresIs(s: string) returns (n: nat)
    ensures n <= |s| && StripUnderscores(s) == s[..n] && (forall i :: n <= i < |s| ==> s[i] == '_')
    ensures n > 0 ==> s[n - 1] != '_'
  {
    n := |s|;
    if s != "" && s[|s| - 1] == '_' {
      n := StripUnderscoresIs(s[..|s| - 1]);
      assert s[..|s| - 1][..n] == s[..n];
    } else {
      assert s[..n] == s;
    }
  }

  lemma GroupAfter(head: string, group: string, rest: string, measurement: string)
    requires '_' !in head && '_' !in group
    ensures PartOf(head + ['_'] + group, measurement, 1) == Named(measurement, group)
    ensures PartOf(head + ['_'] + (group + ['_'] + rest), measurement, 1) == Named(measurement, group)
    ensures PartOf(head, measurement, 1) == MissingPart
  {
    SplitFree(head, '_');
    SplitFree(group, '_');
    SplitAround(head, group, '_');
    SplitAround(group, rest, '_');
    SplitAround(head, group + ['_'] + rest, '_');
  }

  /** A report that is known by a prefix without underscores belongs to that measurement and to the group
      between the first underscore and the next; without an underscore there is no group to read. */
  lemma ReportIs(k: nat, tail: string, group: string, rest: string)
    requires 3 <= k < KNOWN_PREFIXES && k != PROM_QUERY && '_' !in tail && '_' !in group
    requires FirstMatch(Prefix(k) + tail + ['_'] + (group + ['_'] + rest), 0) == k
    ensures Measurement(Prefix(k) + tail + ['_'] + (group + ['_'] + rest)) == Named(Prefix(k), group)
  {
    PrefixesArePlain(k);
    GroupAfter(Prefix(k) + tail, group, rest, Prefix(k));
  }

  lemma NoGroup(k: nat, tail: string)
    requires 3 <= k < KNOWN_PREFIXES && k != PROM_QUERY && '_' !in tail && FirstMatch(Prefix(k) + tail, 0) == k
    ensures Measurement(Prefix(k) + tail) == MissingPart
  {
    PrefixesArePlain(k);
    GroupAfter(Prefix(k) + tail, "", "", Prefix(k));
  }

  lemma PrefixesArePlain(k: nat)
    requires 3 <= k < KNOWN_PREFIXES
    ensures '_' !in Prefix(k)
  {
    match k {
      case 3 => assert '_' !in "APIResponsivenessPrometheus";
      case 4 => assert '_' !in "InClusterNetworkLatency";
      case 5 => assert '_' !in "NetworkProgrammingLatency";
      case 6 => assert '_' !in "GenericPrometheusQuery";
      case 7 => assert '_' !in "JobLifecycleLatency";
      case 8 => assert '_' !in "ResourceUsageSummary";
      case 9 => assert '_' !in "NetworkPolicySoakMeasurement";
      case _ => assert '_' !in "SchedulingThroughput" && '_' !in "Prometheus";
    }
  }

  lemma ThirdPart(first: string, second: string, group: string, rest: string, measurement: string)
    requires '_' !in first && '_' !in second && '_' !in group
    ensures PartOf(first + ['_'] + (second + ['_'] + (group + ['_'] + rest)), measurement, 2) ==
      Named(measurement, group)
  {
    var tail := group + ['_'] + rest;
    SplitAround(first, second + ['_'] + tail, '_');
    SplitAround(second, tail, '_');
    SplitAround(group, rest, '_');
    SplitFree(first, '_');
    SplitFree(second, '_');
    SplitFree(group, '_');
  }

  lemma PodMeasurement(s: string, k: nat, name: string)
    requires k < 3 && FirstMatch(s, 0) == k && Prefix(k) == name + ['_']
    ensures Measurement(s) == PartOf(s, name, 2)
  {
    assert (name + ['_'])[..|name|] == name;
  }

  /** A pod startup report is known by two words, and its group is the third part of its name. */
  lemma PodReportIs(k: nat, first: string, second: string, group: string, rest: string)
    requires k < 3 && '_' !in first && '_' !in second && '_' !in group
    requires Prefix(k) == first + ['_'] + second + ['_']
    requires FirstMatch(first + ['_'] + (second + ['_'] + (group + ['_'] + rest)), 0) == k
    ensures Measurement(first + ['_'] + (second + ['_'] + (group + ['_'] + rest))) ==
      Named(first + ['_'] + second, group)
  {
    ThirdPart(first, second, group, rest, first + ['_'] + second);
    PodMeasurement(first + ['_'] + (second + ['_'] + (group + ['_'] + rest)), k, first + ['_'] + second);
  }

  // ---- Queries: parsing inverts the format ----

  /** The name clusterloader2 gives to the report of a query. */
  function QueryName(separator: char, measurement: string, group: string, timestamp: string): string {
    Prefix(PROM_QUERY) + [separator] + (measurement + ['_'] + (group + ['_'] + timestamp))
  }

  function InitialOf(k: nat): char {
    match k
    case 0 => 'P'
    case 3 => 'A'
    case 4 => 'I'
    case 5 | 9 => 'N'
    case 6 => 'G'
    case 7 => 'J'
    case 8 => 'R'
    case _ => 'S'
  }

  lemma Initial(k: nat)
    requires k < KNOWN_PREFIXES
    ensures |Prefix(k)| > 8 && Prefix(k)[0] == InitialOf(k)
  {
  }

  lemma QueryNameIsRecognised(separator: char, measurement: string, group: string, timestamp: string)
    ensures FirstMatch(QueryName(separator, measurement, group, timestamp), 0) == PROM_QUERY
  {
    var s := QueryName(separator, measurement, group, timestamp);
    assert s[0] == 'G';
    assert s[..|Prefix(PROM_QUERY)|] == Prefix(PROM_QUERY);
    forall k | 0 <= k < PROM_QUERY
      ensures !(Prefix(k) <= s)
    {
      Initial(k);
    }
  }

  lemma SplitsOfRemainder(measurement: string, group: string, timestamp: string)
    requires '_' !in group && '_' !in timestamp
    ensures Split(measurement + ['_'] + (group + ['_'] + timestamp), '_') ==
      Split(measurement, '_') + [group, timestamp]
  {
    SplitAround(measurement, group + ['_'] + timestamp, '_');
    SplitAround(group, timestamp, '_');
    SplitFree(group, '_');
    SplitFree(timestamp, '_');
  }

  /** Whatever the measurement contains, the group and the measurement come back, the latter without
      trailing underscores. */
  lemma ParsingInvertsFormat(separator: char, measurement: string, group: string, timestamp: string)
    requires separator == ' ' || separator == '_'
    requires '_' !in group && '_' !in timestamp && 'T' in timestamp
    ensures Measurement(QueryName(separator, measurement, group, timestamp)) ==
      Named(StripUnderscores(measurement), group)
  {
    var s := QueryName(separator, measurement, group, timestamp);
    var n := |Prefix(PROM_QUERY)|;
    var remainder := measurement + ['_'] + (group + ['_'] + timestamp);
    QueryNameIsRecognised(separator, measurement, group, timestamp);
    assert s[n] == separator && s[n + 1..] == remainder;
    SplitsOfRemainder(measurement, group, timestamp);
    var parts := Split(remainder, '_');
    assert parts[..|parts| - 2] == Split(measurement, '_');
    JoinSplit(measurement, '_');
  }

  lemma {:induction false} StripKeepsLength(s: string)
    ensures |StripUnderscores(s)| <= |s|
    ensures StripUnderscores(s) == s <==> s == "" || s[|s| - 1] != '_'
  {
    if s != "" && s[|s| - 1] == '_' {
      StripKeepsLength(s[..|s| - 1]);
    }
  }

  /** So the format is inverted exactly for measurements that do not end in an underscore. */
  lemma RoundTripIff(separator: char, measurement: string, group: string, timestamp: string)
    requires separator == ' ' || separator == '_'
    requires '_' !in group && '_' !in timestamp && 'T' in timestamp
    ensures Measurement(QueryName(separator, measurement, group, timestamp)) == Named(measurement, group) <==>
      measurement == "" || measurement[|measurement| - 1] != '_'
  {
    ParsingInvertsFormat(separator, measurement, group, timestamp);
    StripKeepsLength(measurement);
  }

  // ---- Dispatch: first match is longest match ----

  /** Two prefixes of one name that differ in a character below both lengths are the same prefix. */
  lemma Separated(s: string, p: string, q: string, i: nat)
    requires p <= s && q <= s && i < |p| && i < |q|
    ensures p[i] == q[i]
  {
    assert p[i] == s[i] == q[i];
  }

  lemma PodsDiffer(s: string)
    ensures !(Prefix(1) <= s && Prefix(2) <= s)
  {
    assert Prefix(1)[5] == 'f' && Prefix(2)[5] == 'l';
    if Prefix(1) <= s && Prefix(2) <= s {
      Separated(s, Prefix(1), Prefix(2), 5);
    }
  }

  lemma NetworksDiffer(s: string)
    ensures !(Prefix(5) <= s && Prefix(9) <= s)
  {
    assert Prefix(5)[8] == 'r' && Prefix(9)[8] == 'o';
    if Prefix(5) <= s && Prefix(9) <= s {
      Separated(s, Prefix(5), Prefix(9), 8);
    }
  }

  lemma PodsAreNotScheduling(s: string, k: nat, j: nat)
    requires 1 <= k <= 2 && 10 <= j <= 11
    ensures !(Prefix(k) <= s && Prefix(j) <= s)
  {
    assert Prefix(k)[1] == 't' && Prefix(j)[1] == 'c';
    if Prefix(k) <= s && Prefix(j) <= s {
      Separated(s, Prefix(k), Prefix(j), 1);
    }
  }

  lemma SameInitial(s: string, k: nat, j: nat)
    requires k < KNOWN_PREFIXES && j < KNOWN_PREFIXES
    requires Prefix(k) <= s && Prefix(j) <= s
    ensures InitialOf(k) == InitialOf(j)
  {
    Initial(k);
    Initial(j);
    Separated(s, Prefix(k), Prefix(j), 0);
  }

  /** Only the two scheduling prefixes are nested. */
  lemma NestedPrefixes(s: string, k: nat, j: nat)
    requires k < j < KNOWN_PREFIXES
    requires Prefix(k) <= s && Prefix(j) <= s
    ensures k == 10 && j == 11
  {
    SameInitial(s, k, j);
    PodsDiffer(s);
    NetworksDiffer(s);
    if k <= 2 && 10 <= j {
      if 1 <= k {
        PodsAreNotScheduling(s, k, j);
      }
    }
  }

  lemma EarlierIsLonger(s: string, k: nat, j: nat)
    requires k <= j < KNOWN_PREFIXES
    requires Prefix(k) <= s && Prefix(j) <= s
    ensures |Prefix(j)| <= |Prefix(k)|
  {
    if k < j {
      NestedPrefixes(s, k, j);
      assert |Prefix(11)| <= |Prefix(10)|;
    }
  }

  /** The prefix chosen by trying them in order is the longest known prefix of the name. */
  lemma FirstMatchIsLongest(s: string, j: nat)
    requires j < KNOWN_PREFIXES && Prefix(j) <= s
    ensures var k := FirstMatch(s, 0);
      k < KNOWN_PREFIXES && Prefix(k) <= s && |Prefix(j)| <= |Prefix(k)|
  {
    EarlierIsLonger(s, FirstMatch(s, 0), j);
  }

  lemma QueryUnknownIff(remainder: string)
    ensures ParseQuery(remainder) == Unknown <==> forall part <- Split(remainder, '_')[1..] :: 'T' !in part
  {
    var parts := Split(remainder, '_');
    var t := TimestampAt(parts, |parts| - 1);
    if t > 0 {
      assert parts[1..][t - 1] == parts[t];
    }
  }

  lemma QueryIsFirst(s: string)
    requires Prefix(PROM_QUERY) <= s
    ensures FirstMatch(s, 0) == PROM_QUERY
  {
    var k := FirstMatch(s, 0);
    assert Prefix(k) <= s;
    if k < PROM_QUERY {
      NestedPrefixes(s, k, PROM_QUERY);
    }
  }

  lemma QueryNameUnknownIff(s: string)
    requires Prefix(PROM_QUERY) <= s
    ensures var n := |Prefix(PROM_QUERY)|;
      MeasurementBy(s, PROM_QUERY) == Unknown <==>
        |s| == n || s[n] !in {' ', '_'} || forall part <- Split(s[n + 1..], '_')[1..] :: 'T' !in part
  {
    var n := |Prefix(PROM_QUERY)|;
    if |s| > n {
      QueryUnknownIff(s[n + 1..]);
    }
  }

  /** A name yields nothing exactly if no prefix is known, or if it is a query's and no separator follows, or no part
      after the first looks like a timestamp. */
  lemma UnknownIff(s: string)
    ensures Measurement(s) == Unknown <==>
      || (forall k :: 0 <= k < KNOWN_PREFIXES ==> !(Prefix(k) <= s))
      || (var n := |Prefix(PROM_QUERY)|;
          && Prefix(PROM_QUERY) <= s
          && (|s| == n || s[n] !in {' ', '_'} || forall part <- Split(s[n + 1..], '_')[1..] :: 'T' !in part))
  {
    var k := FirstMatch(s, 0);
    if k == KNOWN_PREFIXES {
      assert Measurement(s) == Unknown;
    } else if k == PROM_QUERY {
      QueryNameUnknownIff(s);
    } else {
      assert Grouped(s, k) != Unknown;
      if Prefix(PROM_QUERY) <= s {
        QueryIsFirst(s);
      }
    }
  }
}
