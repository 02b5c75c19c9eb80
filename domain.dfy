/** The two enumerations the API accepts by name: the scheduling policy and the
    generated scenario. Both parse a nullable text by trimming it and
    lower-casing it, and reject anything outside their three codes. */
module DomainTypes {
  import opened Wrappers
  import opened Text

  datatype SchedulerType = FCFS | RR | SJF

  /** The lower-case code each policy is known by. */
  function SchedulerCode(t: SchedulerType): (c: string)
    ensures c == "fcfs" || c == "rr" || c == "sjf"
  {
    match t
    case FCFS => "fcfs"
    case RR => "rr"
    case SJF => "sjf"
  }

  /** The text `from` compares: trimmed, then lower-cased. */
  function Normalized(value: string): string { ToLower(Trim(value)) }

  /** `SchedulerType.from`: a missing value is its own error; a present one is
      accepted exactly when its normalized text is the code of some policy. */
  function SchedulerFrom(value: Option<string>): (r: Result<SchedulerType>)
    ensures value.None? ==> r == Err(Missing)
    ensures value.Some? ==> forall t :: r == Ok(t) <==> Normalized(value.value) == SchedulerCode(t)
    ensures value.Some? && r.Err? ==> r.error == UnknownName
  {
    match value
    case None => Err(Missing)
    case Some(v) =>
      var n := Normalized(v);
      if n == "fcfs" then Ok(FCFS)
      else if n == "rr" then Ok(RR)
      else if n == "sjf" then Ok(SJF)
      else Err(UnknownName)
  }

  /** A code contains no surrounding blanks and no upper-case letters, so
      normalizing it changes nothing. */
  lemma {:induction false} NormalizedCode(c: string)
    requires forall i :: 0 <= i < |c| ==> 'a' <= c[i] <= 'z'
    requires |c| > 0
    ensures Normalized(c) == c
  {
    assert LeadingTrimmed(c) == 0;
    assert TrailingTrimmed(c) == 0;
    assert Trim(c) == c;
  }

  /** Parsing the code of a policy gives the policy back. */
  lemma SchedulerRoundTrip(t: SchedulerType)
    ensures SchedulerFrom(Some(SchedulerCode(t))) == Ok(t)
  {
    NormalizedCode(SchedulerCode(t));
  }

  /** Distinct policies have distinct codes. */
  lemma SchedulerCodesDistinct(t1: SchedulerType, t2: SchedulerType)
    requires SchedulerCode(t1) == SchedulerCode(t2)
    ensures t1 == t2
  {
    SchedulerRoundTrip(t1);
    SchedulerRoundTrip(t2);
  }

  /** Surrounding blanks and capitals are accepted; other words are not. */
  lemma SchedulerFromPadded()
    ensures SchedulerFrom(Some(" RR ")) == Ok(RR)
  {
    assert LeadingTrimmed(" RR ") == 1 by { assert " RR "[1..] == "RR "; }
    var t := " RR "[1..];
    assert t == "RR ";
    assert TrailingTrimmed(t) == 1 by { assert t[..2] == "RR"; }
    assert Trim(" RR ") == "RR";
    assert ToLower("RR") == "rr";
  }

  lemma SchedulerFromMixedCase()
    ensures SchedulerFrom(Some("Fcfs")) == Ok(FCFS)
    ensures SchedulerFrom(Some("SJF")) == Ok(SJF)
  {
    TrimNoop("Fcfs");
    assert ToLower("Fcfs") == "fcfs";
    TrimNoop("SJF");
    assert ToLower("SJF") == "sjf";
  }

  lemma SchedulerFromUnknown()
    ensures SchedulerFrom(Some("lottery")) == Err(UnknownName)
  {
    TrimNoop("lottery");
    assert ToLower("lottery") == "lottery";
  }

  datatype ScenarioType = Simple | Medio | Complejo

  function ScenarioCode(t: ScenarioType): (c: string)
    ensures c == "simple" || c == "medio" || c == "complejo"
  {
    match t
    case Simple => "simple"
    case Medio => "medio"
    case Complejo => "complejo"
  }

  /** `ScenarioType.from`, with the same shape as `SchedulerFrom`. */
  function ScenarioFrom(value: Option<string>): (r: Result<ScenarioType>)
    ensures value.None? ==> r == Err(Missing)
    ensures value.Some? ==> forall t :: r == Ok(t) <==> Normalized(value.value) == ScenarioCode(t)
    ensures value.Some? && r.Err? ==> r.error == UnknownName
  {
    match value
    case None => Err(Missing)
    case Some(v) =>
      var n := Normalized(v);
      if n == "simple" then Ok(Simple)
      else if n == "medio" then Ok(Medio)
      else if n == "complejo" then Ok(Complejo)
      else Err(UnknownName)
  }

  lemma ScenarioRoundTrip(t: ScenarioType)
    ensures ScenarioFrom(Some(ScenarioCode(t))) == Ok(t)
  {
    NormalizedCode(ScenarioCode(t));
  }

  lemma ScenarioFromPaddedCase()
    ensures ScenarioFrom(Some(" Medio")) == Ok(Medio)
  {
    assert LeadingTrimmed(" Medio") == 1 by { assert " Medio"[1..] == "Medio"; }
    TrimNoop("Medio");
    assert Trim(" Medio") == "Medio";
    assert ToLower("Medio") == "medio";
  }

  lemma ScenarioFromOthers()
    ensures ScenarioFrom(Some("COMPLEJO")) == Ok(Complejo)
    ensures ScenarioFrom(Some("grande")) == Err(UnknownName)
  {
    TrimNoop("COMPLEJO");
    assert ToLower("COMPLEJO") == "complejo";
    TrimNoop("grande");
    assert ToLower("grande") == "grande";
  }
}

/** Process-wide settings: the Round-Robin quantum, the scenario sizes and the
    worker parallelism. */
module Config {
  import opened Wrappers
  import opened Text
  import opened DomainTypes

  /** Default Round-Robin quantum, in milliseconds. */
  const QUANTUM_MS: nat := 10

  const SCENARIO_SIZES: map<string, int> := map["simple" := 3, "medio" := 20, "complejo" := 80]

  /** `Config.scenarioSize`: lower-cased (not trimmed) lookup, -1 when the name
      is missing or unknown. */
  function ScenarioSize(name: Option<string>): (r: int)
    ensures name.None? ==> r == -1
    ensures name.Some? && ToLower(name.value) in SCENARIO_SIZES ==> r == SCENARIO_SIZES[ToLower(name.value)]
    ensures name.Some? && ToLower(name.value) !in SCENARIO_SIZES ==> r == -1
    ensures r == -1 || r > 0
  {
    match name
    case None => -1
    case Some(s) =>
      var k := ToLower(s);
      if k in SCENARIO_SIZES then SCENARIO_SIZES[k] else -1
  }

  /** Every scenario code has a positive size; the sizes are 3, 20 and 80. */
  lemma ScenarioCodeSizes(t: ScenarioType)
    ensures ScenarioSize(Some(ScenarioCode(t))) > 0
    ensures ScenarioSize(Some(ScenarioCode(t))) == match t case Simple => 3 case Medio => 20 case Complejo => 80
  {
    var c := ScenarioCode(t);
    assert ToLower(c) == c;
  }

  /** The size lookup ignores case but not surrounding blanks. */
  lemma ScenarioSizeExamples()
    ensures ScenarioSize(Some("MEDIO")) == 20
    ensures ScenarioSize(Some(" medio")) == -1
    ensures ScenarioSize(Some("huge")) == -1
  {
    assert ToLower("MEDIO") == "medio";
    assert ToLower(" medio") == " medio";
    assert ToLower("huge") == "huge";
  }

  /** The parsed override, when it is a positive 32-bit integer. */
  function PositiveOverride(override: Option<string>): (v: Option<int>)
    ensures v.Some? ==> v.value > 0
  {
    match override
    case None => None
    case Some(s) =>
      if IsBlank(s) then None
      else match ParseInteger(Trim(s), INT_MIN, INT_MAX)
        case Some(x) => if x > 0 then Some(x) else None
        case None => None
  }

  /** `computeParallelism` with the processor count and the DC_PARALLELISM
      setting as parameters: a positive override is capped by the processors,
      anything else gives one less than the processors, but at least one. */
  function ComputeParallelism(available: int, override: Option<string>): (r: int)
    ensures PositiveOverride(override).Some? ==> r == Min(PositiveOverride(override).value, available)
    ensures PositiveOverride(override).None? ==> r == Max(1, available - 1)
    ensures available >= 1 ==> 1 <= r <= available
  {
    var baseline := Max(1, available - 1);
    match PositiveOverride(override)
    case Some(v) => Min(v, available)
    case None => baseline
  }

  function Min(a: int, b: int): int { if a <= b then a else b }
  function Max(a: int, b: int): int { if a >= b then a else b }

  /** A missing or blank override falls back to the baseline. */
  lemma ParallelismFallback()
    ensures ComputeParallelism(8, None) == 7
    ensures ComputeParallelism(8, Some("  ")) == 7
    ensures ComputeParallelism(1, None) == 1
  {
    assert IsBlank("  ");
  }

  /** A non-numeric or non-positive override falls back to the baseline. */
  lemma ParallelismRejectedOverride()
    ensures ComputeParallelism(8, Some("0")) == 7
    ensures ComputeParallelism(8, Some("four")) == 7
  {
    assert !IsJavaWhitespace('0');
    TrimNoop("0");
    assert DigitsValue("0") == Some(0);
    assert !IsJavaWhitespace('f');
    TrimNoop("four");
    assert !IsDigit('r');
  }

  /** A positive override is taken, capped by the processor count. */
  lemma ParallelismAcceptedOverride()
    ensures ComputeParallelism(8, Some("3")) == 3
    ensures ComputeParallelism(8, Some("64")) == 8
  {
    assert !IsJavaWhitespace('3');
    TrimNoop("3");
    assert DigitsValue("3") == Some(3);
    assert !IsJavaWhitespace('6');
    TrimNoop("64");
    assert DigitsValue("64") == Some(64) by { assert "64"[..1] == "6"; }
  }
}
