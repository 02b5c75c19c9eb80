/** Process metrics sampled around each job: cpu load, used memory, and the
    growth since the previous sample of the context-switch counters of the
    process status file and the byte counters of the process io file. The
    files are passed in as their lines (`None` when unreadable); the
    operating-system bean's load and the runtime's memory figures are
    parameters. NaN is `None`. */
module SystemMetrics {
  import opened Wrappers
  import opened Text

  const VOLUNTARY_KEY := "voluntary_ctxt_switches"
  const INVOLUNTARY_KEY := "nonvoluntary_ctxt_switches"
  const READ_BYTES_KEY := "read_bytes"
  const WRITE_BYTES_KEY := "write_bytes"

  /** What the process status and io files are read for. */
  datatype Metrics = Metrics(cpuPercent: Option<real>, usedMemoryMb: real,
                             contextSwitchesVoluntary: Option<real>, contextSwitchesInvoluntary: Option<real>,
                             ioReadBytes: Option<real>, ioWriteBytes: Option<real>)

  // ------------------------------------------------------------- reading

  /** The characters of the regular expression `\s`. */
  predicate IsRegexSpace(c: char) {
    c == ' ' || c == '\t' || c == '\n' || c == '\U{000B}' || c == '\U{000C}' || c == '\r'
  }

  /** `split("\\s+")[0]` of a trimmed text: the part before its first
      whitespace character. */
  function FirstToken(s: string): (r: string)
    ensures r <= s
    ensures forall i :: 0 <= i < |r| ==> !IsRegexSpace(r[i])
    ensures r == s || IsRegexSpace(s[|r|])
  {
    if s == [] || IsRegexSpace(s[0]) then [] else [s[0]] + FirstToken(s[1..])
  }

  /** `Long.parseLong`, with the -1 the readers return when it throws. */
  function ParseLongOrFail(s: string): (r: int)
    ensures ParseInteger(s, LONG_MIN, LONG_MAX).Some? ==> r == ParseInteger(s, LONG_MIN, LONG_MAX).value
    ensures ParseInteger(s, LONG_MIN, LONG_MAX).None? ==> r == -1
  {
    match ParseInteger(s, LONG_MIN, LONG_MAX)
    case Some(v) => v
    case None => -1
  }

  /** The status file's reading of the first line that starts with the
      prefix and holds a second ':'-separated part: that part trimmed, up
      to its first whitespace, as a long; a line with the prefix but no
      second part is passed over. */
  function StatusScan(lines: seq<string>, prefix: string): int {
    if lines == [] then -1
    else
      var parts := JavaSplit(lines[0], ':');
      if StartsWith(lines[0], prefix) && |parts| >= 2 then ParseLongOrFail(FirstToken(Trim(parts[1])))
      else StatusScan(lines[1..], prefix)
  }

  /** `readValueFromStatus`: -1 when the file is unreadable, no line has
      the key, or the number does not parse. */
  function StatusValue(status: Option<seq<string>>, key: string): int {
    if status.None? then -1 else StatusScan(status.value, key + ":")
  }

  /** The io file's reading of the first line that starts with the prefix:
      the rest of the line trimmed, as a long. */
  function IoScan(lines: seq<string>, prefix: string): int {
    if lines == [] then -1
    else if StartsWith(lines[0], prefix) then ParseLongOrFail(Trim(lines[0][|prefix|..]))
    else IoScan(lines[1..], prefix)
  }

  /** `readValueFromIo`: -1 when the file is unreadable, no line has the
      key, or the number does not parse. */
  function IoValue(io: Option<seq<string>>, key: string): int {
    if io.None? then -1 else IoScan(io.value, key + ":")
  }

  /** The status file's `key:\t<n>` line gives n back, whatever the lines
      after it, when no earlier line starts with the key. */
  lemma StatusReadsBack(before: seq<string>, key: string, n: nat, after: seq<string>)
    requires ':' !in key && n <= LONG_MAX
    requires forall k :: 0 <= k < |before| ==> !StartsWith(before[k], key + ":")
    ensures StatusValue(Some(before + [key + ":\t" + NatToString(n)] + after), key) == n
  {
    var prefix := key + ":";
    var line := key + ":\t" + NatToString(n);
    StatusScanSkips(before, [line] + after, prefix);
    assert before + [line] + after == before + ([line] + after);
    StatusLineValue(key, n);
  }

  lemma StatusLineValue(key: string, n: nat)
    requires ':' !in key && n <= LONG_MAX
    ensures StatusScan([key + ":\t" + NatToString(n)], key + ":") == n
  {
    var digits := NatToString(n);
    var line := key + ":\t" + digits;
    var value := "\t" + digits;
    assert line == key + [':'] + value;
    StatusLineSplits(key, value);
    assert StartsWith(line, key + ":");
    TabDigitsTrim(digits);
    FirstTokenOfDigits(digits);
    ParseLongOfDigits(n);
  }

  /** A long printed in decimal parses back. */
  lemma ParseLongOfDigits(n: nat)
    requires n <= LONG_MAX
    ensures ParseLongOrFail(NatToString(n)) == n
  {
    DigitsOfNatToString(n);
  }

  /** A `key:value` line with no other ':' splits into its key and value. */
  lemma StatusLineSplits(key: string, value: string)
    requires ':' !in key && ':' !in value && value != []
    ensures JavaSplit(key + [':'] + value, ':') == [key, value]
  {
    IndexOfAfter(key, ':', value);
    var line := key + [':'] + value;
    assert line[..|key|] == key && line[|key| + 1..] == value;
    assert SplitAll(value, ':') == [value];
  }

  lemma TabDigitsTrim(digits: string)
    requires digits != [] && forall i :: 0 <= i < |digits| ==> IsDigit(digits[i])
    ensures Trim("\t" + digits) == digits
  {
    var t := "\t" + digits;
    assert LeadingTrimmed(t) == 1 by {
      assert t[1..] == digits;
    }
    assert t[1..] == digits;
    TrimNoop(digits);
  }

  lemma {:induction false} FirstTokenOfDigits(digits: string)
    requires forall i :: 0 <= i < |digits| ==> IsDigit(digits[i])
    ensures FirstToken(digits) == digits
  {
    if digits != [] {
      FirstTokenOfDigits(digits[1..]);
    }
  }

  /** Lines that do not start with the prefix are passed over. */
  lemma {:induction false} StatusScanSkips(before: seq<string>, rest: seq<string>, prefix: string)
    requires forall k :: 0 <= k < |before| ==> !StartsWith(before[k], prefix)
    ensures StatusScan(before + rest, prefix) == StatusScan(rest, prefix)
  {
    if before == [] {
      assert before + rest == rest;
    } else {
      assert (before + rest)[0] == before[0];
      assert (before + rest)[1..] == before[1..] + rest;
      StatusScanSkips(before[1..], rest, prefix);
    }
  }

  /** The io file's `key: <n>` line gives n back, whatever the lines after
      it, when no earlier line starts with the key. */
  lemma IoReadsBack(before: seq<string>, key: string, n: nat, after: seq<string>)
    requires n <= LONG_MAX
    requires forall k :: 0 <= k < |before| ==> !StartsWith(before[k], key + ":")
    ensures IoValue(Some(before + [key + ": " + NatToString(n)] + after), key) == n
  {
    var prefix := key + ":";
    var line := key + ": " + NatToString(n);
    IoScanSkips(before, [line] + after, prefix);
    assert before + [line] + after == before + ([line] + after);
    IoLineValue(key, n);
  }

  lemma IoLineValue(key: string, n: nat)
    requires n <= LONG_MAX
    ensures IoScan([key + ": " + NatToString(n)], key + ":") == n
  {
    var digits := NatToString(n);
    var line := key + ": " + digits;
    assert line[|key + ":"|..] == " " + digits;
    SpaceDigitsTrim(digits);
    ParseLongOfDigits(n);
  }

  lemma SpaceDigitsTrim(digits: string)
    requires digits != [] && forall i :: 0 <= i < |digits| ==> IsDigit(digits[i])
    ensures Trim(" " + digits) == digits
  {
    var t := " " + digits;
    assert LeadingTrimmed(t) == 1 by {
      assert t[1..] == digits;
    }
    assert t[1..] == digits;
    TrimNoop(digits);
  }

  lemma {:induction false} IoScanSkips(before: seq<string>, rest: seq<string>, prefix: string)
    requires forall k :: 0 <= k < |before| ==> !StartsWith(before[k], prefix)
    ensures IoScan(before + rest, prefix) == IoScan(rest, prefix)
  {
    if before == [] {
      assert before + rest == rest;
    } else {
      assert (before + rest)[0] == before[0];
      assert (before + rest)[1..] == before[1..] + rest;
      IoScanSkips(before[1..], rest, prefix);
    }
  }

  lemma StatusScanStep(lines: seq<string>, i: nat, prefix: string)
    requires i < |lines|
    ensures var parts := JavaSplit(lines[i], ':');
            StatusScan(lines[i..], prefix)
            == if StartsWith(lines[i], prefix) && |parts| >= 2 then ParseLongOrFail(FirstToken(Trim(parts[1])))
               else StatusScan(lines[i + 1..], prefix)
  {
    assert lines[i..][1..] == lines[i + 1..];
  }

  /** `readValueFromStatus` as the loop it is. */
  method ReadValueFromStatus(status: Option<seq<string>>, key: string) returns (v: int)
    ensures v == StatusValue(status, key)
  {
    if status.None? {
      return -1;
    }
    var lines := status.value;
    var prefix := key + ":";
    var i := 0;
    while i < |lines|
      invariant 0 <= i <= |lines|
      invariant StatusScan(lines[i..], prefix) == StatusScan(lines, prefix)
    {
      StatusScanStep(lines, i, prefix);
      var line := lines[i];
      if StartsWith(line, prefix) {
        var parts := JavaSplit(line, ':');
        if |parts| >= 2 {
          var number := FirstToken(Trim(parts[1]));
          return ParseLongOrFail(number);
        }
      }
      i := i + 1;
    }
    return -1;
  }

  /** `readValueFromIo` as the loop it is. */
  method ReadValueFromIo(io: Option<seq<string>>, key: string) returns (v: int)
    ensures v == IoValue(io, key)
  {
    if io.None? {
      return -1;
    }
    var lines := io.value;
    var prefix := key + ":";
    var i := 0;
    while i < |lines|
      invariant 0 <= i <= |lines|
      invariant IoScan(lines[i..], prefix) == IoScan(lines, prefix)
    {
      assert lines[i..][1..] == lines[i + 1..];
      var line := lines[i];
      if StartsWith(line, prefix) {
        var number := Trim(line[|prefix|..]);
        return ParseLongOrFail(number);
      }
      i := i + 1;
    }
    return -1;
  }

  // ------------------------------------------------------------- deltas

  /** One sample of a counter against the previous one: a failed reading
      (negative) is NaN and keeps the previous value; otherwise the reading
      is stored, and the result is 0 on the first sample, NaN when the
      counter went down (a reset), and else the growth. */
  function DeltaStep(previous: int, current: int): (r: (Option<int>, int))
    ensures current < 0 ==> r == (None, previous)
    ensures current >= 0 ==> r.1 == current
    ensures r.0.Some? ==> 0 <= r.0.value
    ensures r.0.Some? && previous < 0 ==> r.0.value == 0
    ensures r.0.Some? && previous >= 0 ==> previous + r.0.value == current
    ensures r.0.None? ==> current < 0 || (0 <= previous && current < previous)
  {
    if current < 0 then (None, previous)
    else if previous < 0 then (Some(0), current)
    else if current - previous < 0 then (None, current)
    else (Some(current - previous), current)
  }

  /** The results and the stored value after a series of samples. */
  function Run(previous: int, readings: seq<int>): (r: (seq<Option<int>>, int))
    ensures |r.0| == |readings|
  {
    if readings == [] then ([], previous)
    else
      var before := Run(previous, readings[..|readings| - 1]);
      var step := DeltaStep(before.1, readings[|readings| - 1]);
      (before.0 + [step.0], step.1)
  }

  /** The sum of the numeric results. */
  function DeltaSum(ds: seq<Option<int>>): int {
    if ds == [] then 0
    else DeltaSum(ds[..|ds| - 1]) + (if ds[|ds| - 1].Some? then ds[|ds| - 1].value else 0)
  }

  /** Over readings that never fail and never go down, every result is a
      number and they add up to the counter's total growth, the first
      sample of a fresh counter counting 0: the deltas telescope. */
  lemma {:induction false} RunTelescopes(previous: int, readings: seq<int>)
    requires readings != [] && (previous < 0 || previous <= readings[0])
    requires forall i :: 0 <= i < |readings| ==> 0 <= readings[i]
    requires forall i :: 0 < i < |readings| ==> readings[i - 1] <= readings[i]
    ensures Run(previous, readings).1 == readings[|readings| - 1]
    ensures forall k :: 0 <= k < |readings| ==> Run(previous, readings).0[k].Some?
    ensures DeltaSum(Run(previous, readings).0) == readings[|readings| - 1] - (if previous < 0 then readings[0] else previous)
  {
    var n := |readings|;
    if n > 1 {
      var init := readings[..n - 1];
      RunTelescopes(previous, init);
      var before := Run(previous, init);
      assert before.1 == readings[n - 2];
      assert (before.0 + [DeltaStep(before.1, readings[n - 1]).0])[..n - 1] == before.0;
    }
  }

  // --------------------------------------------------------------- state

  /** An `AtomicLong` holding a counter's previous reading; -1 until the
      first successful reading. */
  class CounterCell {
    var value: int

    constructor ()
      ensures value == -1
    {
      value := -1;
    }

    method GetAndSet(v: int) returns (prev: int)
      modifies this
      ensures prev == old(value) && value == v
    {
      prev := value;
      value := v;
    }

    method Set(v: int)
      modifies this
      ensures value == v
    {
      value := v;
    }
  }

  /** `readStatusDelta` and `readIoMetric` share this body; `current` is
      the file reading. */
  method ReadDelta(current: int, previous: CounterCell) returns (r: Option<int>)
    modifies previous
    ensures (r, previous.value) == DeltaStep(old(previous.value), current)
  {
    if current < 0 {
      return None;
    }
    var prev := previous.GetAndSet(current);
    if prev < 0 {
      return Some(0);
    }
    var delta := current - prev;
    if delta < 0 {
      previous.Set(current);
      return None;
    }
    return Some(delta);
  }

  method ReadStatusDelta(status: Option<seq<string>>, key: string, previous: CounterCell) returns (r: Option<int>)
    modifies previous
    ensures (r, previous.value) == DeltaStep(old(previous.value), StatusValue(status, key))
  {
    var current := ReadValueFromStatus(status, key);
    r := ReadDelta(current, previous);
  }

  method ReadIoMetric(io: Option<seq<string>>, key: string, previous: CounterCell) returns (r: Option<int>)
    modifies previous
    ensures (r, previous.value) == DeltaStep(old(previous.value), IoValue(io, key))
  {
    var current := ReadValueFromIo(io, key);
    r := ReadDelta(current, previous);
  }

  function AsReal(d: Option<int>): Option<real> {
    if d.Some? then Some(d.value as real) else None
  }

  /** `readCpuPercent`: the system load as a percentage, NaN when the bean
      gives none or a negative one. */
  function CpuPercent(load: Option<real>): (r: Option<real>)
    ensures r.Some? <==> load.Some? && load.value >= 0.0
    ensures r.Some? ==> r.value == 100.0 * load.value
  {
    if load.Some? && load.value >= 0.0 then Some(load.value * 100.0) else None
  }

  /** `readMemoryMb`: used heap in MiB. */
  function MemoryMb(totalMemory: int, freeMemory: int): (r: real)
    ensures r * 1048576.0 == (totalMemory - freeMemory) as real
  {
    (totalMemory - freeMemory) as real / (1024.0 * 1024.0)
  }

  /** `snapshot`: each counter is read against its own cell. */
  method Snapshot(load: Option<real>, totalMemory: int, freeMemory: int,
                  status: Option<seq<string>>, io: Option<seq<string>>,
                  lastVoluntary: CounterCell, lastInvoluntary: CounterCell,
                  lastReadBytes: CounterCell, lastWriteBytes: CounterCell) returns (m: Metrics)
    requires lastVoluntary != lastInvoluntary && lastVoluntary != lastReadBytes && lastVoluntary != lastWriteBytes
    requires lastInvoluntary != lastReadBytes && lastInvoluntary != lastWriteBytes && lastReadBytes != lastWriteBytes
    modifies lastVoluntary, lastInvoluntary, lastReadBytes, lastWriteBytes
    ensures var v := DeltaStep(old(lastVoluntary.value), StatusValue(status, VOLUNTARY_KEY));
            var n := DeltaStep(old(lastInvoluntary.value), StatusValue(status, INVOLUNTARY_KEY));
            var rb := DeltaStep(old(lastReadBytes.value), IoValue(io, READ_BYTES_KEY));
            var wb := DeltaStep(old(lastWriteBytes.value), IoValue(io, WRITE_BYTES_KEY));
            m == Metrics(CpuPercent(load), MemoryMb(totalMemory, freeMemory), AsReal(v.0), AsReal(n.0),
                         AsReal(rb.0), AsReal(wb.0))
            && lastVoluntary.value == v.1 && lastInvoluntary.value == n.1
            && lastReadBytes.value == rb.1 && lastWriteBytes.value == wb.1
  {
    var cpu := CpuPercent(load);
    var memory := MemoryMb(totalMemory, freeMemory);
    var voluntary := ReadStatusDelta(status, VOLUNTARY_KEY, lastVoluntary);
    var involuntary := ReadStatusDelta(status, INVOLUNTARY_KEY, lastInvoluntary);
    var readBytes := ReadIoMetric(io, READ_BYTES_KEY, lastReadBytes);
    var writeBytes := ReadIoMetric(io, WRITE_BYTES_KEY, lastWriteBytes);
    m := Metrics(cpu, memory, AsReal(voluntary), AsReal(involuntary), AsReal(readBytes), AsReal(writeBytes));
  }
}
