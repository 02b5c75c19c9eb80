/** The job log: one CSV line per finished job, under a header line that is
    written only when the log is missing or empty. The log file is modelled
    as its sequence of lines; number formatting (`%.3f`, `%.6e`) is left to
    the caller, which hands over the ten measures already as text. */
module MetricsLog {
  import opened Wrappers
  import opened Text

  const UNKNOWN := "unknown"

  /** The header's fifteen column names, in order. */
  const COLUMNS: seq<string> := ["ts", "job_id", "method", "scheduler", "scenario", "elapsed_ms",
    "waiting_ms", "turnaround_ms", "cpu_pct", "mem_mb", "ctx_voluntary", "ctx_involuntary",
    "io_read_bytes", "io_write_bytes", "residual"]

  /** A line of the log: the header, or one job's fields. */
  datatype LogLine = HeaderLine | EntryLine(fields: seq<string>)

  /** A line's text: its fields (or the column names) joined by commas. */
  function LineText(l: LogLine): string {
    match l
    case HeaderLine => Join(COLUMNS, ',')
    case EntryLine(fields) => if fields == [] then [] else Join(fields, ',')
  }

  predicate IsLineBreak(c: char) { c == '\r' || c == '\n' }

  /** `replaceAll("[\\r\\n]", "")`. */
  function RemoveLineBreaks(s: string): (r: string)
    ensures forall i :: 0 <= i < |r| ==> !IsLineBreak(r[i])
    ensures |r| <= |s|
  {
    if s == [] then []
    else (if IsLineBreak(s[0]) then [] else [s[0]]) + RemoveLineBreaks(s[1..])
  }

  lemma {:induction false} RemoveLineBreaksNoop(s: string)
    requires forall i :: 0 <= i < |s| ==> !IsLineBreak(s[i])
    ensures RemoveLineBreaks(s) == s
  {
    if s != [] {
      RemoveLineBreaksNoop(s[1..]);
    }
  }

  /** `sanitizeScheduler` and `sanitizeScenario` (the two are the same):
      a missing or blank value becomes "unknown"; otherwise line breaks are
      removed and the ends trimmed. */
  function Sanitize(s: Option<string>): string {
    if s.None? || IsBlank(s.value) then UNKNOWN else Trim(RemoveLineBreaks(s.value))
  }

  /** Trimming keeps a text free of line breaks. */
  lemma TrimKeepsSingleLine(t: string)
    requires forall i :: 0 <= i < |t| ==> !IsLineBreak(t[i])
    ensures forall i :: 0 <= i < |Trim(t)| ==> !IsLineBreak(Trim(t)[i])
  {
    TrimIsInfix(t);
    var a, b :| 0 <= a <= b <= |t| && Trim(t) == t[a..b];
    assert forall i :: 0 <= i < |Trim(t)| ==> Trim(t)[i] == t[a + i];
  }

  /** A sanitized value is a single line: it holds no CR or LF. */
  lemma SanitizeSingleLine(s: Option<string>)
    ensures forall i :: 0 <= i < |Sanitize(s)| ==> !IsLineBreak(Sanitize(s)[i])
  {
    if s.Some? && !IsBlank(s.value) {
      TrimKeepsSingleLine(RemoveLineBreaks(s.value));
    } else {
      assert forall i :: 0 <= i < |UNKNOWN| ==> !IsLineBreak(UNKNOWN[i]);
    }
  }

  /** A single-line, non-blank value without trimmable ends is its own
      sanitized form. */
  lemma SanitizeFixes(r: string)
    requires forall i :: 0 <= i < |r| ==> !IsLineBreak(r[i])
    requires Trim(r) == r && !IsBlank(r)
    ensures Sanitize(Some(r)) == r
  {
    RemoveLineBreaksNoop(r);
  }

  /** A sanitized value has no trimmable ends, and sanitizing it again,
      when it is not blank, gives it back unchanged. */
  lemma SanitizeIdempotent(s: Option<string>)
    ensures Trim(Sanitize(s)) == Sanitize(s)
    ensures !IsBlank(Sanitize(s)) ==> Sanitize(Some(Sanitize(s))) == Sanitize(s)
  {
    var r := Sanitize(s);
    SanitizeSingleLine(s);
    TrimNoop(r);
    if !IsBlank(r) {
      SanitizeFixes(r);
    }
  }

  /** One log line's content before formatting: the result's identity, the
      raw scheduler and scenario, and the ten measures (elapsed, waiting,
      turnaround, cpu, memory, two context-switch counts, two I/O counts,
      residual) already rendered as text. */
  datatype LogEntry = LogEntry(timestamp: string, jobId: string, methodName: string,
                               scheduler: Option<string>, scenario: Option<string>, measures: seq<string>)

  predicate WellFormed(e: LogEntry) { |e.measures| == 10 }

  /** The fifteen fields of an entry's line, in header order. */
  function Fields(e: LogEntry): (f: seq<string>)
    requires WellFormed(e)
    ensures |f| == |COLUMNS|
  {
    [e.timestamp, e.jobId, e.methodName, Sanitize(e.scheduler), Sanitize(e.scenario)] + e.measures
  }

  function RowLine(e: LogEntry): LogLine
    requires WellFormed(e)
  {
    EntryLine(Fields(e))
  }

  /** The log after one `log` call: the header first when the log was empty,
      then the entry's line; an I/O failure leaves the log as it was. */
  function Appended(lines: seq<LogLine>, e: LogEntry, writable: bool): seq<LogLine>
    requires WellFormed(e)
  {
    if !writable then lines
    else lines + (if lines == [] then [HeaderLine] else []) + [RowLine(e)]
  }

  /** The log after a series of successful `log` calls. */
  function AppendedAll(lines: seq<LogLine>, es: seq<LogEntry>): seq<LogLine>
    requires forall k :: 0 <= k < |es| ==> WellFormed(es[k])
  {
    if es == [] then lines else Appended(AppendedAll(lines, es[..|es| - 1]), es[|es| - 1], true)
  }

  function RowLines(es: seq<LogEntry>): (r: seq<LogLine>)
    requires forall k :: 0 <= k < |es| ==> WellFormed(es[k])
    ensures |r| == |es| && forall k :: 0 <= k < |es| ==> r[k] == RowLine(es[k])
  {
    seq(|es|, k requires 0 <= k < |es| => RowLine(es[k]))
  }

  /** The header is written once: a log that starts empty holds the header
      followed by one line per entry, in order; a non-empty log only gains
      the entries' lines. */
  lemma {:induction false} HeaderOnce(lines: seq<LogLine>, es: seq<LogEntry>)
    requires forall k :: 0 <= k < |es| ==> WellFormed(es[k])
    ensures AppendedAll(lines, es) == lines + (if lines == [] && es != [] then [HeaderLine] else []) + RowLines(es)
  {
    if es != [] {
      var init := es[..|es| - 1];
      var last := es[|es| - 1];
      HeaderOnce(lines, init);
      var before := AppendedAll(lines, init);
      assert RowLines(es) == RowLines(init) + [RowLine(last)];
      if lines == [] && init == [] {
        assert before == [];
      } else {
        assert before != [];
      }
    }
  }

  /** The logger. Its one field stands for the log file's lines. */
  class MetricsLogger {
    var lines: seq<LogLine>

    constructor (existing: seq<LogLine>)
      ensures lines == existing
    {
      lines := existing;
    }

    /** `log`: `writable` is false when the file cannot be written, which
        the source ignores. */
    method Log(e: LogEntry, writable: bool)
      requires WellFormed(e)
      modifies this
      ensures lines == Appended(old(lines), e, writable)
    {
      if !writable {
        return;
      }
      var writeHeader := lines == [];
      if writeHeader {
        lines := lines + [HeaderLine];
      }
      lines := lines + [RowLine(e)];
    }
  }
}
