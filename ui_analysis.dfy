/** The analysis page's reading of the job log: `parseCsv` turns the log's
    text into chart entries, one per job line, and the scenario selector
    narrows them down. JavaScript's `Number` is a parameter `num` (None
    stands for NaN). */
module AnalysisView {
  import opened Wrappers
  import opened Text
  import ML = MetricsLog

  /** One chart entry: the line's identity fields, the scheduler in upper
      case, the scenario cut at its first '-', and the measures as numbers. */
  datatype CsvEntry = CsvEntry(timestamp: string, jobId: string, methodName: string, scheduler: string,
                               scenario: string, elapsedMs: Option<real>, waitingMs: Option<real>,
                               turnaroundMs: Option<real>, cpuPct: Option<real>, memMb: Option<real>,
                               ctxVoluntary: Option<real>, ctxInvoluntary: Option<real>,
                               ioReadBytes: Option<real>, ioWriteBytes: Option<real>, residual: Option<real>)

  /** `Number(parts[i])`: a field past the end is `undefined`, which is NaN. */
  function FieldNumber(parts: seq<string>, i: nat, num: string -> Option<real>): (r: Option<real>)
    ensures i >= |parts| ==> r.None?
    ensures i < |parts| ==> r == num(parts[i])
  {
    if i < |parts| then num(parts[i]) else None
  }

  /** The entry made of a line's fields. */
  function EntryOf(parts: seq<string>, num: string -> Option<real>): CsvEntry
    requires |parts| >= 7
  {
    CsvEntry(parts[0], parts[1], parts[2], ToUpper(parts[3]), BeforeFirst(parts[4], '-'),
             FieldNumber(parts, 5, num), FieldNumber(parts, 6, num), FieldNumber(parts, 7, num),
             FieldNumber(parts, 8, num), FieldNumber(parts, 9, num), FieldNumber(parts, 10, num),
             FieldNumber(parts, 11, num), FieldNumber(parts, 12, num), FieldNumber(parts, 13, num),
             if |parts| >= 15 then num(parts[14]) else None)
  }

  /** An entry keeps the line's identity, has no lower-case ASCII letter in
      its scheduler, has its scenario cut before the first '-', and has a
      residual only when the line has a fifteenth field. */
  lemma EntryFields(parts: seq<string>, num: string -> Option<real>)
    requires |parts| >= 7
    ensures var e := EntryOf(parts, num);
      && e.timestamp == parts[0] && e.jobId == parts[1] && e.methodName == parts[2]
      && |e.scheduler| == |parts[3]| && (forall k :: 0 <= k < |e.scheduler| ==> !('a' <= e.scheduler[k] <= 'z'))
      && '-' !in e.scenario
      && ('-' in parts[4] ==> e.scenario + "-" <= parts[4])
      && ('-' !in parts[4] ==> e.scenario == parts[4])
      && e.elapsedMs == num(parts[5]) && e.waitingMs == num(parts[6])
      && (|parts| < 15 ==> e.residual.None?)
      && (|parts| >= 15 ==> e.residual == num(parts[14]))
  {
  }

  // ------------------------------------------------------------- lines

  /** A line less the carriage return that ends it, if any. */
  function DropCr(p: string): (r: string)
    ensures r <= p && |p| <= |r| + 1
  {
    if p != [] && p[|p| - 1] == '\r' then p[..|p| - 1] else p
  }

  /** `split(/\r?\n/)`: the text cut at every line feed, a carriage return
      right before a line feed going with it. */
  function SplitLines(s: string): (r: seq<string>)
    ensures |r| >= 1
    ensures forall k :: 0 <= k < |r| ==> '\n' !in r[k]
    decreases |s|
  {
    var i := IndexOf(s, '\n');
    if i < 0 then [s]
    else
      var p := DropCr(s[..i]);
      assert forall c :: c in p ==> c in s[..i];
      [p] + SplitLines(s[i + 1..])
  }

  /** A text without a line feed is one line. */
  lemma OneLine(a: string)
    requires '\n' !in a
    ensures SplitLines(a) == [a]
  {
  }

  /** A line ended by a line feed comes out whole. */
  lemma LfLine(a: string, b: string)
    requires '\n' !in a && (a == [] || a[|a| - 1] != '\r')
    ensures SplitLines(a + "\n" + b) == [a] + SplitLines(b)
  {
    var s := a + "\n" + b;
    IndexOfAfter(a, '\n', b);
    assert s[..|a|] == a && s[|a| + 1..] == b;
  }

  /** A line ended by a carriage return and a line feed comes out the same
      as one ended by the line feed alone. */
  lemma CrLfLine(a: string, b: string)
    requires '\n' !in a
    ensures SplitLines(a + "\r\n" + b) == [a] + SplitLines(b)
  {
    var s := a + "\r\n" + b;
    var a' := a + "\r";
    assert s == a' + "\n" + b;
    IndexOfAfter(a', '\n', b);
    assert s[..|a'|] == a' && s[|a'| + 1..] == b;
    assert DropCr(a') == a;
  }

  /** Splitting undoes joining lines with line feeds, when no line holds a
      line feed or ends with a carriage return. */
  lemma {:induction false} LinesRoundTrip(ls: seq<string>)
    requires |ls| >= 1
    requires forall k :: 0 <= k < |ls| ==> '\n' !in ls[k] && (ls[k] == [] || ls[k][|ls[k]| - 1] != '\r')
    ensures SplitLines(Join(ls, '\n')) == ls
    decreases |ls|
  {
    if |ls| == 1 {
      OneLine(ls[0]);
    } else {
      var rest := ls[1..];
      LinesRoundTrip(rest);
      assert Join(ls, '\n') == ls[0] + "\n" + Join(rest, '\n');
      LfLine(ls[0], Join(rest, '\n'));
      assert ls == [ls[0]] + rest;
    }
  }

  // ----------------------------------------------------------- entries

  /** What one line after the header adds: its entry when it has seven
      fields or more, nothing otherwise. */
  function LineEntry(line: string, num: string -> Option<real>): (r: seq<CsvEntry>)
    ensures |r| <= 1
  {
    var parts := SplitAll(line, ',');
    if |parts| < 7 then [] else [EntryOf(parts, num)]
  }

  /** Each element's pieces, concatenated in order. */
  function FlatMap<A, B>(f: A -> seq<B>, xs: seq<A>): seq<B> {
    if xs == [] then [] else FlatMap(f, xs[..|xs| - 1]) + f(xs[|xs| - 1])
  }

  lemma {:induction false} FlatMapAppend<A, B>(f: A -> seq<B>, a: seq<A>, b: seq<A>)
    ensures FlatMap(f, a + b) == FlatMap(f, a) + FlatMap(f, b)
    decreases |b|
  {
    if b == [] {
      assert a + b == a;
    } else {
      var init := b[..|b| - 1];
      FlatMapAppend(f, a, init);
      assert (a + b)[..|a + b| - 1] == a + init;
      assert (a + b)[|a + b| - 1] == b[|b| - 1];
    }
  }

  lemma {:induction false} FlatMapAtMostOne<A, B>(f: A -> seq<B>, xs: seq<A>)
    requires forall x :: |f(x)| <= 1
    ensures |FlatMap(f, xs)| <= |xs|
  {
    if xs != [] {
      FlatMapAtMostOne(f, xs[..|xs| - 1]);
    }
  }

  /** The entries of the lines after the header, in order. */
  function EntriesOf(lines: seq<string>, num: string -> Option<real>): (r: seq<CsvEntry>)
    ensures |r| <= |lines|
  {
    FlatMapAtMostOne(l => LineEntry(l, num), lines);
    FlatMap(l => LineEntry(l, num), lines)
  }

  /** The log's text as lines: trimmed, then split. */
  function CsvLines(raw: string): seq<string> {
    SplitLines(JsTrim(raw))
  }

  /** `parseCsv`: no entries for an empty text or one of a single line;
      otherwise the entries of the lines after the first. */
  function CsvRows(raw: string, num: string -> Option<real>): (r: seq<CsvEntry>)
    ensures |r| < |CsvLines(raw)|
    ensures raw == [] ==> r == []
  {
    if raw == [] then []
    else
      var lines := CsvLines(raw);
      if |lines| <= 1 then [] else EntriesOf(lines[1..], num)
  }

  /** `parseCsv`'s loop over the lines, pushing one entry per long enough line. */
  method ParseCsv(raw: string, num: string -> Option<real>) returns (data: seq<CsvEntry>)
    ensures data == CsvRows(raw, num)
  {
    if raw == [] {
      return [];
    }
    var lines := SplitLines(JsTrim(raw));
    if |lines| <= 1 {
      return [];
    }
    data := [];
    var i := 1;
    while i < |lines|
      invariant 1 <= i <= |lines|
      invariant data == EntriesOf(lines[1..i], num)
    {
      var parts := SplitAll(lines[i], ',');
      EntriesStep(lines, i, num);
      assert LineEntry(lines[i], num) == if |parts| < 7 then [] else [EntryOf(parts, num)];
      if |parts| >= 7 {
        data := data + [EntryOf(parts, num)];
      }
      i := i + 1;
    }
    assert lines[1..i] == lines[1..];
  }

  lemma EntriesStep(lines: seq<string>, i: nat, num: string -> Option<real>)
    requires 1 <= i < |lines|
    ensures EntriesOf(lines[1..i + 1], num) == EntriesOf(lines[1..i], num) + LineEntry(lines[i], num)
  {
    assert lines[1..i + 1] == lines[1..i] + [lines[i]];
    FlatMapAppend(l => LineEntry(l, num), lines[1..i], [lines[i]]);
    assert FlatMap(l => LineEntry(l, num), [lines[i]]) == LineEntry(lines[i], num);
  }

  /** Lines are read independently and in order. */
  lemma EntriesAppend(a: seq<string>, b: seq<string>, num: string -> Option<real>)
    ensures EntriesOf(a + b, num) == EntriesOf(a, num) + EntriesOf(b, num)
  {
    FlatMapAppend(l => LineEntry(l, num), a, b);
  }

  lemma EntriesOne(line: string, num: string -> Option<real>)
    ensures EntriesOf([line], num) == LineEntry(line, num)
  {
    assert FlatMap(l => LineEntry(l, num), [line]) == LineEntry(line, num);
  }

  /** A line of fewer than seven fields is skipped wherever it stands. */
  lemma ShortLineSkipped(a: seq<string>, line: string, b: seq<string>, num: string -> Option<real>)
    requires |SplitAll(line, ',')| < 7
    ensures EntriesOf(a + [line] + b, num) == EntriesOf(a + b, num)
  {
    EntriesAppend(a + [line], b, num);
    EntriesAppend(a, [line], num);
    EntriesAppend(a, b, num);
    EntriesOne(line, num);
  }

  /** A line of seven fields or more gives exactly its entry, in its place. */
  lemma LongLineKept(a: seq<string>, line: string, b: seq<string>, num: string -> Option<real>)
    requires |SplitAll(line, ',')| >= 7
    ensures EntriesOf(a + [line] + b, num) == EntriesOf(a, num) + [EntryOf(SplitAll(line, ','), num)] + EntriesOf(b, num)
  {
    EntriesAppend(a + [line], b, num);
    EntriesAppend(a, [line], num);
    EntriesOne(line, num);
  }

  /** The first line is never an entry: whatever it holds, the text's
      entries are those of the lines after it. */
  lemma HeaderIgnored(header: string, body: seq<string>, num: string -> Option<real>)
    requires '\n' !in header && (header == [] || header[|header| - 1] != '\r')
    requires |body| >= 1
    requires forall k :: 0 <= k < |body| ==> '\n' !in body[k] && (body[k] == [] || body[k][|body[k]| - 1] != '\r')
    requires var raw := Join([header] + body, '\n'); JsTrim(raw) == raw && raw != []
    ensures CsvRows(Join([header] + body, '\n'), num) == EntriesOf(body, num)
  {
    var ls := [header] + body;
    forall k | 0 <= k < |ls|
      ensures '\n' !in ls[k] && (ls[k] == [] || ls[k][|ls[k]| - 1] != '\r')
    {
      if k > 0 {
        assert ls[k] == body[k - 1];
      }
    }
    LinesRoundTrip(ls);
    assert ls[1..] == body;
  }

  /** A line the job log writes reads back as the logger's fields: the
      job's identity, its scheduler in upper case, its scenario up to the
      first '-', and the residual from the last column. */
  lemma LoggedLineEntry(e: ML.LogEntry, num: string -> Option<real>)
    requires ML.WellFormed(e)
    requires forall k :: 0 <= k < |ML.Fields(e)| ==> ',' !in ML.Fields(e)[k]
    ensures LineEntry(ML.LineText(ML.RowLine(e)), num) == [EntryOf(ML.Fields(e), num)]
    ensures var u := EntryOf(ML.Fields(e), num);
            u.jobId == e.jobId && u.methodName == e.methodName
            && u.scheduler == ToUpper(ML.Sanitize(e.scheduler))
            && u.scenario == BeforeFirst(ML.Sanitize(e.scenario), '-')
            && u.elapsedMs == num(e.measures[0]) && u.residual == num(e.measures[9])
  {
    var f := ML.Fields(e);
    assert ML.LineText(ML.RowLine(e)) == Join(f, ',');
    JoinSplitAll(f, ',');
    EntryFields(f, num);
  }

  // --------------------------------------------------------- filtering

  /** The selector's value that shows every scenario. */
  const ALL := "all"

  /** The entries whose scenario is `s`, in order. */
  function WithScenario(rows: seq<CsvEntry>, s: string): (r: seq<CsvEntry>)
    ensures |r| <= |rows|
    ensures forall k :: 0 <= k < |r| ==> r[k].scenario == s && r[k] in rows
  {
    if rows == [] then []
    else
      var last := rows[|rows| - 1];
      WithScenario(rows[..|rows| - 1], s) + (if last.scenario == s then [last] else [])
  }

  /** `filteredRows`: every entry for "all", otherwise those of the chosen scenario. */
  function FilteredRows(rows: seq<CsvEntry>, selected: string): (r: seq<CsvEntry>)
    ensures selected == ALL ==> r == rows
    ensures selected != ALL ==> forall k :: 0 <= k < |r| ==> r[k].scenario == selected && r[k] in rows
  {
    if selected == ALL then rows else WithScenario(rows, selected)
  }

  /** Filtering keeps order: the parts of a list are filtered separately. */
  lemma {:induction false} WithScenarioAppend(a: seq<CsvEntry>, b: seq<CsvEntry>, s: string)
    ensures WithScenario(a + b, s) == WithScenario(a, s) + WithScenario(b, s)
    decreases |b|
  {
    if b == [] {
      assert a + b == a;
    } else {
      var init := b[..|b| - 1];
      WithScenarioAppend(a, init, s);
      assert (a + b)[..|a + b| - 1] == a + init;
      assert (a + b)[|a + b| - 1] == b[|b| - 1];
    }
  }

  /** No entry of the chosen scenario is dropped: a list all of that
      scenario is kept whole. */
  lemma {:induction false} WithScenarioAll(rows: seq<CsvEntry>, s: string)
    requires forall k :: 0 <= k < |rows| ==> rows[k].scenario == s
    ensures WithScenario(rows, s) == rows
  {
    if rows != [] {
      WithScenarioAll(rows[..|rows| - 1], s);
    }
  }

  /** A list without the chosen scenario filters to nothing. */
  lemma {:induction false} WithScenarioNone(rows: seq<CsvEntry>, s: string)
    requires forall k :: 0 <= k < |rows| ==> rows[k].scenario != s
    ensures WithScenario(rows, s) == []
  {
    if rows != [] {
      WithScenarioNone(rows[..|rows| - 1], s);
    }
  }
}
