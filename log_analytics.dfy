/** Aggregation of the job log: every accepted line is added to a running
    total and to one group per method, per normalised scenario and per
    lower-cased scheduler; the response holds the averages of each.
    `Double.parseDouble` is a parameter, `None` standing for NaN or a
    parse failure. */
module LogAnalytics {
  import opened Wrappers
  import opened Text
  import opened Numeric
  import opened MetricsLog

  // ------------------------------------------------------------ aggregates

  /** The ten numbers of one line; the optional ones may be NaN without the
      line being rejected. */
  datatype Sample = Sample(elapsed: real, waiting: Option<real>, turnaround: Option<real>, cpu: real, mem: real,
                           ctxVol: Option<real>, ctxInvol: Option<real>, ioRead: Option<real>,
                           ioWrite: Option<real>, residual: Option<real>)

  /** `Aggregate`: a count and a running sum per column; the residual has a
      count of its own. */
  datatype Aggregate = Aggregate(count: nat, elapsedSum: real, waitingSum: real, turnaroundSum: real,
                                 cpuSum: real, memSum: real, ctxVolSum: real, ctxInvolSum: real,
                                 ioReadSum: real, ioWriteSum: real, residualSum: real, residualCount: nat)

  const EMPTY := Aggregate(0, 0.0, 0.0, 0.0, 0.0, 0.0, 0.0, 0.0, 0.0, 0.0, 0.0, 0)

  /** A NaN adds nothing to a sum. */
  function OrZero(v: Option<real>): real { if v.Some? then v.value else 0.0 }

  /** `Aggregate.add`. */
  function Add(g: Aggregate, s: Sample): Aggregate {
    Aggregate(g.count + 1, g.elapsedSum + s.elapsed, g.waitingSum + OrZero(s.waiting),
              g.turnaroundSum + OrZero(s.turnaround), g.cpuSum + s.cpu, g.memSum + s.mem,
              g.ctxVolSum + OrZero(s.ctxVol), g.ctxInvolSum + OrZero(s.ctxInvol),
              g.ioReadSum + OrZero(s.ioRead), g.ioWriteSum + OrZero(s.ioWrite),
              g.residualSum + OrZero(s.residual), g.residualCount + (if s.residual.Some? then 1 else 0))
  }

  /** The aggregate of a series of samples, added in order. */
  function AddAll(samples: seq<Sample>): Aggregate {
    if samples == [] then EMPTY else Add(AddAll(samples[..|samples| - 1]), samples[|samples| - 1])
  }

  function Elapsed(samples: seq<Sample>): (r: seq<real>)
    ensures |r| == |samples|
  {
    seq(|samples|, i requires 0 <= i < |samples| => samples[i].elapsed)
  }

  function Waiting(samples: seq<Sample>): (r: seq<real>)
    ensures |r| == |samples|
  {
    seq(|samples|, i requires 0 <= i < |samples| => OrZero(samples[i].waiting))
  }

  /** The residuals that are numbers, in order. */
  function KnownResiduals(samples: seq<Sample>): seq<real> {
    if samples == [] then []
    else
      var last := samples[|samples| - 1];
      KnownResiduals(samples[..|samples| - 1]) + (if last.residual.Some? then [last.residual.value] else [])
  }

  /** An aggregate counts every sample, sums every elapsed time, sums the
      waiting times with NaN as 0, and keeps only the numeric residuals in
      both the residual sum and the residual count. */
  lemma {:induction false} AddAllSums(samples: seq<Sample>)
    ensures AddAll(samples).count == |samples|
    ensures AddAll(samples).elapsedSum == Sum(Elapsed(samples))
    ensures AddAll(samples).waitingSum == Sum(Waiting(samples))
    ensures AddAll(samples).residualCount == |KnownResiduals(samples)|
    ensures AddAll(samples).residualSum == Sum(KnownResiduals(samples))
  {
    if samples != [] {
      var init := samples[..|samples| - 1];
      var last := samples[|samples| - 1];
      AddAllSums(init);
      assert Elapsed(samples) == Elapsed(init) + [last.elapsed];
      assert Waiting(samples) == Waiting(init) + [OrZero(last.waiting)];
      SumAppend(Elapsed(init), [last.elapsed]);
      SumAppend(Waiting(init), [OrZero(last.waiting)]);
      if last.residual.Some? {
        SumAppend(KnownResiduals(init), [last.residual.value]);
      } else {
        assert KnownResiduals(samples) == KnownResiduals(init);
      }
    }
  }

  /** An average: none (NaN) over no samples. */
  function Mean(sum: real, count: nat): (r: Option<real>)
    ensures r.Some? <==> count > 0
    ensures r.Some? ==> r.value * count as real == sum
  {
    if count == 0 then None else Some(sum / count as real)
  }

  /** Jobs per minute: none (NaN) unless the elapsed sum is positive. */
  function Throughput(g: Aggregate): (r: Option<real>)
    ensures r.Some? <==> g.elapsedSum > 0.0
    ensures r.Some? ==> r.value * g.elapsedSum == g.count as real * 60000.0
  {
    if g.elapsedSum <= 0.0 then None else Some(g.count as real * 60000.0 / g.elapsedSum)
  }

  /** What the response reports for one aggregate. */
  datatype Report = Report(count: nat, avgElapsed: Option<real>, avgWaiting: Option<real>,
                           avgTurnaround: Option<real>, avgCpu: Option<real>, avgMem: Option<real>,
                           avgCtxVoluntary: Option<real>, avgCtxInvoluntary: Option<real>,
                           avgIoRead: Option<real>, avgIoWrite: Option<real>, avgResidual: Option<real>,
                           totalElapsed: real, throughputPerMinute: Option<real>)

  function ReportOf(g: Aggregate): Report {
    Report(g.count, Mean(g.elapsedSum, g.count), Mean(g.waitingSum, g.count), Mean(g.turnaroundSum, g.count),
           Mean(g.cpuSum, g.count), Mean(g.memSum, g.count), Mean(g.ctxVolSum, g.count),
           Mean(g.ctxInvolSum, g.count), Mean(g.ioReadSum, g.count), Mean(g.ioWriteSum, g.count),
           Mean(g.residualSum, g.residualCount), g.elapsedSum, Throughput(g))
  }

  // ------------------------------------------------------------------ rows

  /** Where the reader finds each column. */
  const METHOD_FIELD := 2
  const SCHEDULER_FIELD := 3
  const SCENARIO_FIELD := 4
  const ELAPSED_FIELD := 5
  const RESIDUAL_FIELD := 14
  const MIN_FIELDS := 15

  /** The reader's positions name the logger's columns. */
  lemma ReaderMatchesHeader()
    ensures |COLUMNS| == MIN_FIELDS
    ensures COLUMNS[METHOD_FIELD] == "method" && COLUMNS[SCHEDULER_FIELD] == "scheduler"
    ensures COLUMNS[SCENARIO_FIELD] == "scenario" && COLUMNS[ELAPSED_FIELD] == "elapsed_ms"
    ensures COLUMNS[ELAPSED_FIELD + 1] == "waiting_ms" && COLUMNS[ELAPSED_FIELD + 2] == "turnaround_ms"
    ensures COLUMNS[ELAPSED_FIELD + 3] == "cpu_pct" && COLUMNS[ELAPSED_FIELD + 4] == "mem_mb"
    ensures COLUMNS[ELAPSED_FIELD + 5] == "ctx_voluntary" && COLUMNS[ELAPSED_FIELD + 6] == "ctx_involuntary"
    ensures COLUMNS[ELAPSED_FIELD + 7] == "io_read_bytes" && COLUMNS[ELAPSED_FIELD + 8] == "io_write_bytes"
    ensures COLUMNS[RESIDUAL_FIELD] == "residual"
  {
  }

  datatype Row = Row(methodName: string, scheduler: string, scenario: string, sample: Sample)

  /** The numbers of a line's fields 5..14, when elapsed, cpu and memory
      are numbers. */
  function SampleOf(parts: seq<string>, parse: string -> Option<real>): Option<Sample>
    requires |parts| >= MIN_FIELDS
  {
    var elapsed := parse(parts[5]);
    var cpu := parse(parts[8]);
    var mem := parse(parts[9]);
    if elapsed.None? || cpu.None? || mem.None? then None
    else Some(Sample(elapsed.value, parse(parts[6]), parse(parts[7]), cpu.value, mem.value,
                     parse(parts[10]), parse(parts[11]), parse(parts[12]), parse(parts[13]), parse(parts[14])))
  }

  /** One line after the header: trimmed, split at commas; blank lines,
      lines of fewer than 15 fields and lines whose elapsed, cpu or memory
      is not a number are rejected. */
  function ParseRow(line: string, parse: string -> Option<real>): Option<Row> {
    var t := Trim(line);
    if t == [] then None
    else
      var parts := JavaSplit(t, ',');
      if |parts| < MIN_FIELDS then None
      else match SampleOf(parts, parse)
        case None => None
        case Some(s) => Some(Row(parts[METHOD_FIELD], parts[SCHEDULER_FIELD], parts[SCENARIO_FIELD], s))
  }

  /** What the reader makes of each line. */
  function Parsed(lines: seq<string>, parse: string -> Option<real>): (r: seq<Option<Row>>)
    ensures |r| == |lines|
  {
    seq(|lines|, i requires 0 <= i < |lines| => ParseRow(lines[i], parse))
  }

  /** The rows that are present, in order. */
  function Present(opts: seq<Option<Row>>): (rows: seq<Row>)
    ensures |rows| <= |opts|
  {
    if opts == [] then []
    else
      var more := opts[|opts| - 1];
      Present(opts[..|opts| - 1]) + (if more.Some? then [more.value] else [])
  }

  /** The accepted rows of a series of lines, in order. */
  function Accepted(lines: seq<string>, parse: string -> Option<real>): seq<Row> {
    Present(Parsed(lines, parse))
  }

  // --------------------------------------------------------------- groups

  /** `normalizeScenario`: missing, blank and "unknown" in any case give
      "unknown"; otherwise the lower-cased name, cut at its first '-' when
      that '-' is not the first character. */
  function NormalizeScenario(s: Option<string>): string {
    if s.None? || IsBlank(s.value) || ToLower(s.value) == UNKNOWN then UNKNOWN
    else
      var n := ToLower(s.value);
      var idx := IndexOf(n, '-');
      if idx > 0 then n[..idx] else n
  }

  /** The normalised scenario is "unknown", or the whole lower-cased name
      when that has no '-' after its first character, or else the part of
      the lower-cased name before its first '-'. */
  lemma NormalizeScenarioShape(s: Option<string>)
    ensures var r := NormalizeScenario(s);
            r == UNKNOWN
            || (s.Some? && var n := ToLower(s.value);
                (r == n && (n == [] || n[0] == '-' || '-' !in n))
                || (0 < |r| < |n| && r == n[..|r|] && n[|r|] == '-' && '-' !in r))
  {
    var r := NormalizeScenario(s);
    if r != UNKNOWN {
      var n := ToLower(s.value);
      var idx := IndexOf(n, '-');
      if idx > 0 {
        assert r == n[..idx];
      } else {
        assert r == n;
      }
    }
  }

  /** Lower-casing a lower-cased text changes nothing. */
  lemma ToLowerTwice(s: string)
    ensures ToLower(ToLower(s)) == ToLower(s)
  {
  }

  lemma UnknownIsNormal()
    ensures NormalizeScenario(Some(UNKNOWN)) == UNKNOWN
  {
    assert ToLower(UNKNOWN) == UNKNOWN;
  }

  /** A normalised scenario that is not blank normalises to itself. */
  lemma NormalizeScenarioIdempotent(s: Option<string>)
    requires !IsBlank(NormalizeScenario(s))
    ensures NormalizeScenario(Some(NormalizeScenario(s))) == NormalizeScenario(s)
  {
    var r := NormalizeScenario(s);
    if r == UNKNOWN {
      UnknownIsNormal();
    } else {
      var n := ToLower(s.value);
      var idx := IndexOf(n, '-');
      ToLowerTwice(s.value);
      if idx > 0 {
        assert r == n[..idx];
        assert ToLower(r) == r;
        assert IndexOf(r, '-') == -1;
      } else {
        assert r == n;
        assert IndexOf(r, '-') <= 0;
      }
    }
  }

  /** Per-group aggregates: an absent key starts from an empty aggregate. */
  function Bump(m: map<string, Aggregate>, key: string, s: Sample): map<string, Aggregate> {
    m[key := Add(if key in m then m[key] else EMPTY, s)]
  }

  datatype Summary = Summary(total: Aggregate, byMethod: map<string, Aggregate>,
                             byScenario: map<string, Aggregate>, byScheduler: map<string, Aggregate>)

  const START := Summary(EMPTY, map[], map[], map[])

  function Record(st: Summary, r: Row): Summary {
    Summary(Add(st.total, r.sample), Bump(st.byMethod, r.methodName, r.sample),
            Bump(st.byScenario, NormalizeScenario(Some(r.scenario)), r.sample),
            Bump(st.byScheduler, ToLower(r.scheduler), r.sample))
  }

  function Summarize(rows: seq<Row>): Summary {
    if rows == [] then START else Record(Summarize(rows[..|rows| - 1]), rows[|rows| - 1])
  }

  /** `parseLines`: nothing for no lines; the first line is the header and
      is skipped; nothing when no line is accepted. */
  function Analyze(lines: seq<string>, parse: string -> Option<real>): Option<Summary> {
    if lines == [] then None
    else
      var st := Summarize(Accepted(lines[1..], parse));
      if st.total.count == 0 then None else Some(st)
  }

  /** The total of a summary is the aggregate of the accepted samples. */
  function Samples(rows: seq<Row>): (r: seq<Sample>)
    ensures |r| == |rows|
  {
    seq(|rows|, i requires 0 <= i < |rows| => rows[i].sample)
  }

  // -------------------------------------------------------- group counts

  /** The sum of the counts of a map's aggregates. */
  ghost function CountSum(m: map<string, Aggregate>): nat
    decreases |m|
  {
    if m == map[] then 0
    else
      var k :| k in m;
      m[k].count + CountSum(m - {k})
  }

  /** The count sum does not depend on which key is taken first. */
  lemma {:induction false} CountSumRemove(m: map<string, Aggregate>, k: string)
    requires k in m
    ensures CountSum(m) == m[k].count + CountSum(m - {k})
    decreases |m|
  {
    var j :| j in m && CountSum(m) == m[j].count + CountSum(m - {j});
    if j != k {
      var mj := m - {j};
      var mk := m - {k};
      assert |mj| < |m| && |mk| < |m| by {
        assert mj.Keys == m.Keys - {j};
        assert mk.Keys == m.Keys - {k};
      }
      CountSumRemove(mj, k);
      CountSumRemove(mk, j);
      assert mj - {k} == mk - {j};
    }
  }

  /** Adding a sample to a group adds one to the groups' total count. */
  lemma CountSumBump(m: map<string, Aggregate>, key: string, s: Sample)
    ensures CountSum(Bump(m, key, s)) == CountSum(m) + 1
  {
    var b := Bump(m, key, s);
    CountSumRemove(b, key);
    assert b - {key} == m - {key};
    if key in m {
      CountSumRemove(m, key);
    } else {
      assert m - {key} == m;
    }
  }

  /** Every accepted row is counted once in the total and once in each
      grouping, so each grouping's counts add up to the number of rows; the
      total is the aggregate of the rows' samples. */
  lemma {:induction false} GroupCounts(rows: seq<Row>)
    ensures Summarize(rows).total == AddAll(Samples(rows))
    ensures CountSum(Summarize(rows).byMethod) == |rows|
    ensures CountSum(Summarize(rows).byScenario) == |rows|
    ensures CountSum(Summarize(rows).byScheduler) == |rows|
  {
    if rows == [] {
      assert Summarize(rows) == START;
    } else {
      var init := rows[..|rows| - 1];
      var last := rows[|rows| - 1];
      var st := Summarize(init);
      GroupCounts(init);
      assert Samples(rows)[..|rows| - 1] == Samples(init);
      CountSumBump(st.byMethod, last.methodName, last.sample);
      CountSumBump(st.byScenario, NormalizeScenario(Some(last.scenario)), last.sample);
      CountSumBump(st.byScheduler, ToLower(last.scheduler), last.sample);
    }
  }

  /** The header line takes no part in the result, whatever it holds. */
  lemma HeaderIgnored(h1: string, h2: string, rest: seq<string>, parse: string -> Option<real>)
    ensures Analyze([h1] + rest, parse) == Analyze([h2] + rest, parse)
  {
    assert ([h1] + rest)[1..] == rest && ([h2] + rest)[1..] == rest;
  }

  /** With no line accepted the result is empty. */
  lemma NothingAccepted(lines: seq<string>, parse: string -> Option<real>)
    requires |lines| >= 1 && forall i :: 1 <= i < |lines| ==> ParseRow(lines[i], parse).None?
    ensures Analyze(lines, parse).None?
  {
    NoneAccepted(lines[1..], parse);
    GroupCounts([]);
  }

  lemma {:induction false} NoneAccepted(lines: seq<string>, parse: string -> Option<real>)
    requires forall i :: 0 <= i < |lines| ==> ParseRow(lines[i], parse).None?
    ensures Accepted(lines, parse) == []
  {
    NonePresent(Parsed(lines, parse));
  }

  lemma {:induction false} NonePresent(opts: seq<Option<Row>>)
    requires forall i :: 0 <= i < |opts| ==> opts[i].None?
    ensures Present(opts) == []
  {
    if opts != [] {
      NonePresent(opts[..|opts| - 1]);
    }
  }

  // ------------------------------------------------- reading the log back

  /** What the reader needs to get an entry back as the logger wrote it: no
      field holds a comma (the log does not quote its fields), the line's
      first and last characters are not trimmed away, and the elapsed, cpu
      and memory measures are numbers. */
  predicate Readable(e: LogEntry, parse: string -> Option<real>) {
    WellFormed(e)
    && (forall k :: 0 <= k < |Fields(e)| ==> ',' !in Fields(e)[k])
    && e.timestamp != [] && !IsTrimmed(e.timestamp[0])
    && e.measures[9] != [] && !IsTrimmed(e.measures[9][|e.measures[9]| - 1])
    && parse(e.measures[0]).Some? && parse(e.measures[3]).Some? && parse(e.measures[4]).Some?
  }

  /** A logged line is already trimmed and splits into its fifteen fields. */
  lemma LoggedLineSplits(e: LogEntry, parse: string -> Option<real>)
    requires Readable(e, parse)
    ensures LineText(RowLine(e)) != [] && Trim(LineText(RowLine(e))) == LineText(RowLine(e))
    ensures JavaSplit(LineText(RowLine(e)), ',') == Fields(e)
  {
    var f := Fields(e);
    var line := Join(f, ',');
    assert LineText(RowLine(e)) == line;
    JoinEnds(f, ',');
    var last := f[|f| - 1];
    assert last == e.measures[9];
    assert line[|line| - 1] == last[|last| - 1] by {
      assert line[|line| - |last|..][|last| - 1] == last[|last| - 1];
    }
    assert line[0] == e.timestamp[0];
    TrimNoop(line);
    JoinSplitAll(f, ',');
  }

  /** The row the reader makes of an entry's line. */
  function ReadBack(e: LogEntry, parse: string -> Option<real>): Row
    requires Readable(e, parse)
  {
    Row(e.methodName, Sanitize(e.scheduler), Sanitize(e.scenario), SampleOf(Fields(e), parse).value)
  }

  /** The reader gets back what the logger wrote: the method, the sanitized
      scheduler and scenario, and each measure in its own column. */
  lemma LoggedRowParses(e: LogEntry, parse: string -> Option<real>)
    requires Readable(e, parse)
    ensures ParseRow(LineText(RowLine(e)), parse) == Some(ReadBack(e, parse))
    ensures var r := ReadBack(e, parse); var m := e.measures;
            r.methodName == e.methodName && r.scheduler == Sanitize(e.scheduler) && r.scenario == Sanitize(e.scenario)
            && r.sample.elapsed == parse(m[0]).value && r.sample.waiting == parse(m[1])
            && r.sample.turnaround == parse(m[2]) && r.sample.cpu == parse(m[3]).value
            && r.sample.mem == parse(m[4]).value && r.sample.ctxVol == parse(m[5])
            && r.sample.ctxInvol == parse(m[6]) && r.sample.ioRead == parse(m[7])
            && r.sample.ioWrite == parse(m[8]) && r.sample.residual == parse(m[9])
  {
    LoggedLineSplits(e, parse);
  }

  function Texts(lines: seq<LogLine>): (r: seq<string>)
    ensures |r| == |lines|
  {
    seq(|lines|, i requires 0 <= i < |lines| => LineText(lines[i]))
  }

  function ReadBackAll(es: seq<LogEntry>, parse: string -> Option<real>): (r: seq<Row>)
    requires forall k :: 0 <= k < |es| ==> Readable(es[k], parse)
    ensures |r| == |es|
  {
    seq(|es|, k requires 0 <= k < |es| => ReadBack(es[k], parse))
  }

  /** When every line parses, every row is present, in order. */
  lemma {:induction false} AllPresent(opts: seq<Option<Row>>, rows: seq<Row>)
    requires |opts| == |rows| && forall i :: 0 <= i < |opts| ==> opts[i] == Some(rows[i])
    ensures Present(opts) == rows
  {
    if opts != [] {
      AllPresent(opts[..|opts| - 1], rows[..|rows| - 1]);
    }
  }

  lemma {:induction false} RowLinesAccepted(es: seq<LogEntry>, parse: string -> Option<real>)
    requires forall k :: 0 <= k < |es| ==> WellFormed(es[k])
    requires forall k :: 0 <= k < |es| ==> Readable(es[k], parse)
    ensures Accepted(Texts(RowLines(es)), parse) == ReadBackAll(es, parse)
  {
    if es != [] {
      var ts := Texts(RowLines(es));
      var rows := ReadBackAll(es, parse);
      forall i | 0 <= i < |ts|
        ensures ParseRow(ts[i], parse) == Some(rows[i])
      {
        LoggedRowParses(es[i], parse);
      }
      AllPresent(Parsed(ts, parse), rows);
    }
  }

  /** Past its first line, a log written from empty holds the entries' lines. */
  lemma LogAfterHeader(es: seq<LogEntry>)
    requires es != [] && forall k :: 0 <= k < |es| ==> WellFormed(es[k])
    ensures |AppendedAll([], es)| >= 1 && Texts(AppendedAll([], es))[1..] == Texts(RowLines(es))
  {
    HeaderOnce([], es);
    var log := AppendedAll([], es);
    assert log[1..] == RowLines(es);
    TextsDrop(log);
  }

  lemma TextsDrop(lines: seq<LogLine>)
    requires lines != []
    ensures Texts(lines)[1..] == Texts(lines[1..])
  {
  }

  /** Reading back a log that the logger wrote from empty: the header line
      is skipped and every entry is accepted once, in order, as the row the
      logger wrote (`AnalyzeAfterHeader` then gives the summary of those
      rows, which counts every entry). */
  lemma LogReadBack(es: seq<LogEntry>, parse: string -> Option<real>)
    requires es != [] && forall k :: 0 <= k < |es| ==> WellFormed(es[k])
    requires forall k :: 0 <= k < |es| ==> Readable(es[k], parse)
    ensures |AppendedAll([], es)| >= 1
    ensures Accepted(Texts(AppendedAll([], es))[1..], parse) == ReadBackAll(es, parse)
  {
    LogAfterHeader(es);
    RowLinesAccepted(es, parse);
  }

  /** When the lines after the header give some rows, the result is their
      summary, whose total counts every one of them. */
  lemma AnalyzeAfterHeader(lines: seq<string>, rows: seq<Row>, parse: string -> Option<real>)
    requires |lines| >= 1 && Accepted(lines[1..], parse) == rows && rows != []
    ensures Analyze(lines, parse) == Some(Summarize(rows))
    ensures Summarize(rows).total.count == |rows|
  {
    SummaryCount(rows);
  }

  /** The total counts every row. */
  lemma SummaryCount(rows: seq<Row>)
    ensures Summarize(rows).total.count == |rows|
  {
    GroupCounts(rows);
    AddAllSums(Samples(rows));
  }

  // ---------------------------------------------------------- the method

  /** One more line adds its row, when it has one, to the accepted rows. */
  lemma AcceptedStep(lines: seq<string>, i: nat, parse: string -> Option<real>)
    requires 1 <= i < |lines|
    ensures var row := ParseRow(lines[i], parse);
            Accepted(lines[1..i + 1], parse)
            == Accepted(lines[1..i], parse) + (if row.Some? then [row.value] else [])
  {
    var opts := Parsed(lines[1..i + 1], parse);
    assert opts[..i - 1] == Parsed(lines[1..i], parse);
  }

  lemma SummarizeStep(rows: seq<Row>, r: Row)
    ensures Summarize(rows + [r]) == Record(Summarize(rows), r)
  {
    assert (rows + [r])[..|rows|] == rows;
  }

  /** `parseLines` as the loop it is: the running total and the three maps
      are updated line by line. */
  method ParseLines(lines: seq<string>, parse: string -> Option<real>) returns (r: Option<Summary>)
    ensures r == Analyze(lines, parse)
  {
    if |lines| == 0 {
      return None;
    }
    var total := EMPTY;
    var byMethod: map<string, Aggregate> := map[];
    var byScenario: map<string, Aggregate> := map[];
    var byScheduler: map<string, Aggregate> := map[];
    var i := 1;
    ghost var rows: seq<Row> := [];
    while i < |lines|
      invariant 1 <= i <= |lines|
      invariant rows == Accepted(lines[1..i], parse)
      invariant Summary(total, byMethod, byScenario, byScheduler) == Summarize(rows)
    {
      var row := ParseRow(lines[i], parse);
      AcceptedStep(lines, i, parse);
      if row.Some? {
        SummarizeStep(rows, row.value);
        var s := row.value.sample;
        total := Add(total, s);
        byMethod := Bump(byMethod, row.value.methodName, s);
        byScenario := Bump(byScenario, NormalizeScenario(Some(row.value.scenario)), s);
        byScheduler := Bump(byScheduler, ToLower(row.value.scheduler), s);
        rows := rows + [row.value];
      }
      i := i + 1;
    }
    assert lines[1..i] == lines[1..];
    if total.count == 0 {
      return None;
    }
    return Some(Summary(total, byMethod, byScenario, byScheduler));
  }
}
