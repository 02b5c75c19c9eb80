/** The physical-circuit form's submit handler: the resistance list and the
    voltage are read from the form's text and checked before anything is
    sent; a valid form sends one request and hands the same figures to the
    page. JavaScript's `Number` is a parameter `num` (None stands for NaN);
    the request's answer is a parameter of the handler. */
module PhysicalSolve {
  import opened Wrappers
  import opened Text

  const NO_RESISTANCES := "Ingrese resistencias válidas (positivas) separadas por coma"
  const ZERO_VOLTAGE := "Ingrese un voltaje distinto de cero"

  // ----------------------------------------------------------- parsing

  /** The numbers that are not NaN and are positive, in order. */
  function Positives(vs: seq<Option<real>>): (r: seq<real>)
    ensures |r| <= |vs|
    ensures forall k :: 0 <= k < |r| ==> r[k] > 0.0 && Some(r[k]) in vs
  {
    if vs == [] then []
    else
      var last := vs[|vs| - 1];
      Positives(vs[..|vs| - 1]) + (if last.Some? && last.value > 0.0 then [last.value] else [])
  }

  /** Each piece trimmed and converted. */
  function Numbers(pieces: seq<string>, num: string -> Option<real>): (r: seq<Option<real>>)
    ensures |r| == |pieces|
  {
    if pieces == [] then [] else Numbers(pieces[..|pieces| - 1], num) + [num(JsTrim(pieces[|pieces| - 1]))]
  }

  /** The resistance text read as a list: split on ',', each piece
      trimmed and converted, non-numbers and non-positive values dropped. */
  function ParseResistances(text: string, num: string -> Option<real>): (r: seq<real>)
    ensures forall k :: 0 <= k < |r| ==> r[k] > 0.0
    ensures |r| <= |SplitAll(text, ',')|
  {
    Positives(Numbers(SplitAll(text, ','), num))
  }

  /** Positive numbers are kept as they are. */
  lemma {:induction false} PositivesKept(vs: seq<real>)
    requires forall k :: 0 <= k < |vs| ==> vs[k] > 0.0
    ensures Positives(Somes(vs)) == vs
  {
    if vs != [] {
      var init := vs[..|vs| - 1];
      PositivesKept(init);
      assert Somes(vs)[..|vs| - 1] == Somes(init);
    }
  }

  /** Every value wrapped as a number. */
  function Somes(vs: seq<real>): (r: seq<Option<real>>)
    ensures |r| == |vs| && forall k :: 0 <= k < |vs| ==> r[k] == Some(vs[k])
  {
    seq(|vs|, k requires 0 <= k < |vs| => Some(vs[k]))
  }

  /** Filtering keeps order: the parts of a list are filtered separately. */
  lemma {:induction false} PositivesAppend(a: seq<Option<real>>, b: seq<Option<real>>)
    ensures Positives(a + b) == Positives(a) + Positives(b)
    decreases |b|
  {
    if b == [] {
      assert a + b == a;
    } else {
      var init := b[..|b| - 1];
      PositivesAppend(a, init);
      assert (a + b)[..|a + b| - 1] == a + init;
      assert (a + b)[|a + b| - 1] == b[|b| - 1];
    }
  }

  /** A NaN, zero or negative value is dropped wherever it stands. */
  lemma Dropped(a: seq<Option<real>>, v: Option<real>, b: seq<Option<real>>)
    requires v.None? || v.value <= 0.0
    ensures Positives(a + [v] + b) == Positives(a + b)
  {
    PositivesAppend(a + [v], b);
    PositivesAppend(a, [v]);
    PositivesAppend(a, b);
    assert [v][..0] == [];
  }

  // -------------------------------------------------------- validation

  /** The form's figures after the two checks. */
  datatype Checked = Invalid(message: string) | Valid(voltage: real, resistances: seq<real>)

  /** The checks at the top of `handleSubmit`: at least one valid
      resistance, then a voltage that is a number other than zero. */
  function Check(resistancesText: string, voltage: string, num: string -> Option<real>): (r: Checked)
    ensures r.Invalid? <==> ParseResistances(resistancesText, num) == []
                             || num(voltage).None? || num(voltage) == Some(0.0)
    ensures r.Invalid? && ParseResistances(resistancesText, num) == [] ==> r.message == NO_RESISTANCES
    ensures r.Invalid? && ParseResistances(resistancesText, num) != [] ==> r.message == ZERO_VOLTAGE
    ensures r.Valid? ==> r.resistances == ParseResistances(resistancesText, num) && Some(r.voltage) == num(voltage)
  {
    var resistances := ParseResistances(resistancesText, num);
    if resistances == [] then Invalid(NO_RESISTANCES)
    else
      var v := num(voltage);
      if v.None? || v.value == 0.0 then Invalid(ZERO_VOLTAGE)
      else Valid(v.value, resistances)
  }

  /** A negative voltage passes the check: only NaN and zero are refused. */
  lemma NegativeVoltagePasses(resistancesText: string, voltage: string, num: string -> Option<real>)
    requires ParseResistances(resistancesText, num) != []
    requires num(voltage).Some? && num(voltage).value < 0.0
    ensures Check(resistancesText, voltage, num) == Valid(num(voltage).value, ParseResistances(resistancesText, num))
  {
  }

  // ----------------------------------------------------------- handler

  /** The request's body. */
  datatype Request = Request(sched: string, topology: string, voltage: real, resistances: seq<real>, name: string)

  /** What the page is given on success to draw the circuit. */
  datatype PhysicalConfig = PhysicalConfig(topology: string, voltage: real, resistances: seq<real>, name: string)

  /** How the request ended: answered, or failed with a message. */
  datatype Answer = Answered | Failed(message: string)

  /** What the handler does, in order: state updates, the request, the
      call to the page and the closing of the form. */
  datatype Effect = SetError(error: Option<string>) | SetLoading(on: bool) | Send(request: Request)
                  | Succeeded(scheduler: string, config: PhysicalConfig) | Closed

  /** The handler's effects for the form's figures and the request's answer. */
  function Submitted(scheduler: string, topology: string, voltage: string, resistancesText: string, name: string,
                     num: string -> Option<real>, answer: Answer): seq<Effect>
  {
    match Check(resistancesText, voltage, num)
    case Invalid(message) => [SetError(None), SetError(Some(message)), SetLoading(false)]
    case Valid(v, rs) =>
      [SetError(None), SetLoading(true), Send(Request(scheduler, topology, v, rs, name))]
      + (match answer
         case Answered => [Succeeded(scheduler, PhysicalConfig(topology, v, rs, name)), Closed]
         case Failed(message) => [SetError(Some(message))])
      + [SetLoading(false)]
  }

  /** The form's fields and everything its handler has done. */
  class PhysicalSolveForm {
    var scheduler: string
    var topology: string
    var voltage: string
    var resistancesText: string
    var name: string
    var effects: seq<Effect>

    /** The form as it opens: FCFS, a series circuit of 4, 2 and 1 Ω
        under 12 V. */
    constructor ()
      ensures scheduler == "fcfs" && topology == "serie" && voltage == "12"
      ensures resistancesText == "4,2,1" && name == "circuito-fisico" && effects == []
    {
      scheduler := "fcfs";
      topology := "serie";
      voltage := "12";
      resistancesText := "4,2,1";
      name := "circuito-fisico";
      effects := [];
    }

    /** `handleSubmit`. */
    method HandleSubmit(num: string -> Option<real>, answer: Answer)
      modifies this`effects
      ensures effects == old(effects) + Submitted(scheduler, topology, voltage, resistancesText, name, num, answer)
    {
      ghost var before := effects;
      effects := effects + [SetError(None)];
      var resistances := ParseResistances(resistancesText, num);
      if resistances == [] {
        effects := effects + [SetError(Some(NO_RESISTANCES)), SetLoading(false)];
        assert Check(resistancesText, voltage, num) == Invalid(NO_RESISTANCES);
        AppendThree(before, SetError(None), SetError(Some(NO_RESISTANCES)), SetLoading(false));
        return;
      }
      var voltageValue := num(voltage);
      if voltageValue.None? || voltageValue.value == 0.0 {
        effects := effects + [SetError(Some(ZERO_VOLTAGE)), SetLoading(false)];
        assert Check(resistancesText, voltage, num) == Invalid(ZERO_VOLTAGE);
        AppendThree(before, SetError(None), SetError(Some(ZERO_VOLTAGE)), SetLoading(false));
        return;
      }
      assert Check(resistancesText, voltage, num) == Valid(voltageValue.value, resistances);
      var request := Request(scheduler, topology, voltageValue.value, resistances, name);
      effects := effects + [SetLoading(true)];
      effects := effects + [Send(request)];
      ghost var sent := effects;
      assert sent == before + [SetError(None), SetLoading(true), Send(request)];
      var ending: seq<Effect>;
      match answer {
        case Answered =>
          ending := [Succeeded(scheduler, PhysicalConfig(topology, voltageValue.value, resistances, name)), Closed];
        case Failed(message) =>
          ending := [SetError(Some(message))];
      }
      effects := effects + ending;
      effects := effects + [SetLoading(false)];
      assert effects == before + ([SetError(None), SetLoading(true), Send(request)] + ending + [SetLoading(false)]);
    }
  }

  lemma AppendThree(s: seq<Effect>, a: Effect, b: Effect, c: Effect)
    ensures s + [a] + [b, c] == s + [a, b, c]
  {
  }

  /** A form that fails a check sends nothing and never turns loading on:
      it shows the check's message and ends with loading off. */
  lemma InvalidSendsNothing(scheduler: string, topology: string, voltage: string, resistancesText: string,
                            name: string, num: string -> Option<real>, answer: Answer)
    requires Check(resistancesText, voltage, num).Invalid?
    ensures var es := Submitted(scheduler, topology, voltage, resistancesText, name, num, answer);
            (forall k :: 0 <= k < |es| ==> !es[k].Send? && es[k] != SetLoading(true))
            && es[|es| - 1] == SetLoading(false)
            && SetError(Some(Check(resistancesText, voltage, num).message)) in es
  {
  }

  /** A valid form turns loading on before it sends exactly one request;
      the request and the page get the same parsed voltage and resistances. */
  lemma ValidSendsOnce(scheduler: string, topology: string, voltage: string, resistancesText: string,
                       name: string, num: string -> Option<real>, answer: Answer)
    requires Check(resistancesText, voltage, num).Valid?
    ensures var es := Submitted(scheduler, topology, voltage, resistancesText, name, num, answer);
            var c := Check(resistancesText, voltage, num);
            es[1] == SetLoading(true)
            && es[2] == Send(Request(scheduler, topology, c.voltage, c.resistances, name))
            && (forall k :: 0 <= k < |es| && k != 2 ==> !es[k].Send?)
            && (answer.Answered? ==> es[3] == Succeeded(scheduler, PhysicalConfig(topology, c.voltage, c.resistances, name)))
            && es[|es| - 1] == SetLoading(false)
  {
  }
}
