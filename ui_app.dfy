/** The page's per-method result state: the three method cards' initial and
    reset states, the reducer that stores a batch's results, the solution
    the circuit diagram shows, and the reading of equation checks from a
    loosely typed message. JavaScript's `Number` is stated for undefined,
    null, booleans and numbers; on a string, an array or an object it is a
    parameter `num` (None stands for NaN). */
module AppState {
  import opened Wrappers
  import opened Text

  // ----------------------------------------------------------- methods

  datatype Method = Cramer | GaussJordan | Library

  /** The cards' order. */
  const METHODS: seq<Method> := [Cramer, GaussJordan, Library]

  function MethodName(m: Method): string {
    match m
    case Cramer => "cramer"
    case GaussJordan => "gauss-jordan"
    case Library => "library"
  }

  /** `METHODS.includes(name)`: the method a result's name stands for, if
      it is one of the three. */
  function KnownMethod(name: string): (r: Option<Method>)
    ensures r.Some? ==> MethodName(r.value) == name
    ensures r.None? ==> name != "cramer" && name != "gauss-jordan" && name != "library"
  {
    if name == "cramer" then Some(Cramer)
    else if name == "gauss-jordan" then Some(GaussJordan)
    else if name == "library" then Some(Library)
    else None
  }

  /** Every method is known by its own name. */
  lemma MethodNamesKnown(m: Method)
    ensures KnownMethod(MethodName(m)) == Some(m)
  {
  }

  // --------------------------------------------------- equation checks

  /** A loosely typed message value. */
  datatype Json = JUndefined | JNull | JBool(b: bool) | JNumber(n: real) | JString(s: string)
                | JArray(items: seq<Json>) | JObject(fields: map<string, Json>)

  /** One equation's check, as the result card lists it. */
  datatype Equation = Equation(row: real, lhs: real, rhs: real, error: real)

  /** `typeof item === 'object'` for a value that is not null. */
  predicate IsObject(item: Json) {
    item.JObject? || item.JArray?
  }

  /** `record[name]`: a missing property is `undefined`. */
  function Field(item: Json, name: string): Json {
    if item.JObject? && name in item.fields then item.fields[name] else JUndefined
  }

  /** JavaScript's `Number(v)`, None standing for NaN: undefined is NaN,
      null is 0, a boolean is 1 or 0, a number is itself; strings, arrays and
      objects are converted by `num`. */
  function ToNumber(v: Json, num: Json -> Option<real>): (r: Option<real>)
    ensures v.JUndefined? ==> r.None?
    ensures v.JNull? ==> r == Some(0.0)
    ensures v.JBool? ==> r == Some(if v.b then 1.0 else 0.0)
    ensures v.JNumber? ==> r == Some(v.n)
    ensures v.JString? || v.JArray? || v.JObject? ==> r == num(v)
  {
    match v
    case JUndefined => None
    case JNull => Some(0.0)
    case JBool(b) => Some(if b then 1.0 else 0.0)
    case JNumber(n) => Some(n)
    case _ => num(v)
  }

  /** The check an item stands for: none for a null or non-object item, or
      when any of its four numbers is NaN. */
  function EquationOf(item: Json, num: Json -> Option<real>): (r: Option<Equation>)
    ensures r.Some? <==> IsObject(item) && ToNumber(Field(item, "row"), num).Some?
                         && ToNumber(Field(item, "lhs"), num).Some?
                         && ToNumber(Field(item, "rhs"), num).Some?
                         && ToNumber(Field(item, "error"), num).Some?
    ensures r.Some? ==> r.value == Equation(ToNumber(Field(item, "row"), num).value,
                                            ToNumber(Field(item, "lhs"), num).value,
                                            ToNumber(Field(item, "rhs"), num).value,
                                            ToNumber(Field(item, "error"), num).value)
  {
    if !IsObject(item) then None
    else
      var row := ToNumber(Field(item, "row"), num);
      var lhs := ToNumber(Field(item, "lhs"), num);
      var rhs := ToNumber(Field(item, "rhs"), num);
      var error := ToNumber(Field(item, "error"), num);
      if row.None? || lhs.None? || rhs.None? || error.None? then None
      else Some(Equation(row.value, lhs.value, rhs.value, error.value))
  }

  /** An item missing any of the four properties is dropped, whatever `num`
      does: `Number(undefined)` is NaN. */
  lemma MissingFieldDropped(item: Json, name: string, num: Json -> Option<real>)
    requires name in ["row", "lhs", "rhs", "error"]
    requires !item.JObject? || name !in item.fields
    ensures EquationOf(item, num).None?
  {
  }

  /** An object whose four properties are plain numbers is read as exactly
      those numbers, whatever `num` does. */
  lemma NumericFieldsRead(fields: map<string, Json>, row: real, lhs: real, rhs: real, error: real, num: Json -> Option<real>)
    requires "row" in fields && fields["row"] == JNumber(row)
    requires "lhs" in fields && fields["lhs"] == JNumber(lhs)
    requires "rhs" in fields && fields["rhs"] == JNumber(rhs)
    requires "error" in fields && fields["error"] == JNumber(error)
    ensures EquationOf(JObject(fields), num) == Some(Equation(row, lhs, rhs, error))
  {
  }

  /** The checks of the items that make one, in order. */
  function Kept(items: seq<Json>, num: Json -> Option<real>): (r: seq<Equation>)
    ensures |r| <= |items|
  {
    if items == [] then []
    else
      var e := EquationOf(items[|items| - 1], num);
      Kept(items[..|items| - 1], num) + (if e.Some? then [e.value] else [])
  }

  /** `parseEquations`: nothing for a non-array or when no item is kept. */
  function ParseEquations(value: Json, num: Json -> Option<real>): (r: Option<seq<Equation>>)
    ensures !value.JArray? ==> r.None?
    ensures r.Some? ==> r.value != [] && r.value == Kept(value.items, num)
    ensures value.JArray? && Kept(value.items, num) != [] ==> r.Some?
  {
    if !value.JArray? then None
    else
      var mapped := Kept(value.items, num);
      if |mapped| > 0 then Some(mapped) else None
  }

  /** Items are read independently and keep their order. */
  lemma {:induction false} KeptAppend(a: seq<Json>, b: seq<Json>, num: Json -> Option<real>)
    ensures Kept(a + b, num) == Kept(a, num) + Kept(b, num)
    decreases |b|
  {
    if b == [] {
      assert a + b == a;
    } else {
      var init := b[..|b| - 1];
      KeptAppend(a, init, num);
      assert (a + b)[..|a + b| - 1] == a + init;
      assert (a + b)[|a + b| - 1] == b[|b| - 1];
    }
  }

  /** An item that makes no check is dropped wherever it stands. */
  lemma ItemDropped(a: seq<Json>, item: Json, b: seq<Json>, num: Json -> Option<real>)
    requires EquationOf(item, num).None?
    ensures Kept(a + [item] + b, num) == Kept(a + b, num)
  {
    KeptAppend(a + [item], b, num);
    KeptAppend(a, [item], num);
    KeptAppend(a, b, num);
    assert Kept([item], num) == Kept([], num) + [];
  }

  /** An item that makes a check gives it, in its place. */
  lemma ItemKept(a: seq<Json>, item: Json, b: seq<Json>, num: Json -> Option<real>)
    requires EquationOf(item, num).Some?
    ensures Kept(a + [item] + b, num) == Kept(a, num) + [EquationOf(item, num).value] + Kept(b, num)
  {
    KeptAppend(a + [item], b, num);
    KeptAppend(a, [item], num);
    assert Kept([item], num) == Kept([], num) + [EquationOf(item, num).value];
  }

  // ------------------------------------------------------ card states

  datatype Phase = Idle | Running | Done

  /** A card's state: the last result's figures, when there is one. */
  datatype MethodState = MethodState(elapsedMs: Option<real>, vector: Option<seq<real>>, residual: Option<real>,
                                     scenario: Option<string>, scheduler: Option<string>,
                                     waitingMs: Option<real>, turnaroundMs: Option<real>,
                                     equations: Option<seq<Equation>>, phase: Phase)

  type Methods = map<Method, MethodState>

  /** A card with no figures. */
  function Cleared(phase: Phase): MethodState {
    MethodState(None, None, None, None, None, None, None, None, phase)
  }

  predicate Complete(ms: Methods) {
    forall m: Method :: m in ms
  }

  /** `METHODS.reduce`: each listed method given the same state. */
  function AllSet(ms: seq<Method>, s: MethodState): (r: Methods)
    ensures forall m :: m in r <==> m in ms
    ensures forall m :: m in r ==> r[m] == s
  {
    if ms == [] then map[] else AllSet(ms[..|ms| - 1], s)[ms[|ms| - 1] := s]
  }

  /** The cards' list names every method. */
  lemma AllListed()
    ensures forall m: Method :: m in METHODS
  {
    forall m: Method
      ensures m in METHODS
    {
      match m
      case Cramer => assert METHODS[0] == m;
      case GaussJordan => assert METHODS[1] == m;
      case Library => assert METHODS[2] == m;
    }
  }

  /** The cards before any run: every method idle, with no figures. */
  function InitialMethods(): (r: Methods)
    ensures Complete(r) && forall m :: r[m] == Cleared(Idle)
  {
    AllListed();
    AllSet(METHODS, Cleared(Idle))
  }

  /** `resetMethods`: every method running, every figure cleared, whatever
      the cards showed before. */
  function ResetMethods(): (r: Methods)
    ensures Complete(r) && forall m :: r[m] == Cleared(Running)
  {
    AllListed();
    AllSet(METHODS, Cleared(Running))
  }

  // --------------------------------------------------------- results

  /** A solved result as the backend reports it. */
  datatype SolveResult = SolveResult(jobId: string, methodName: string, scheduler: string, elapsedMs: real,
                                     waitingMs: real, turnaroundMs: real, residual: Option<real>,
                                     scenario: Option<string>, equations: seq<Equation>, x: seq<real>)

  /** The card a result fills: its figures, the scenario cut at the first
      '-', and the state done. */
  function StateOf(r: SolveResult): (s: MethodState)
    ensures s.phase == Done && s.vector == Some(r.x) && s.residual == r.residual
    ensures r.scenario.None? ==> s.scenario.None?
    ensures r.scenario.Some? ==> s.scenario.Some? && '-' !in s.scenario.value && s.scenario.value <= r.scenario.value
    ensures r.scenario.Some? && '-' !in r.scenario.value ==> s.scenario == r.scenario
  {
    MethodState(Some(r.elapsedMs), Some(r.x), r.residual,
                match r.scenario { case None => None case Some(sc) => Some(BeforeFirst(sc, '-')) },
                Some(r.scheduler), Some(r.waitingMs), Some(r.turnaroundMs), Some(r.equations), Done)
  }

  /** The cards after storing the results one after the other. */
  function Applied(prev: Methods, results: seq<SolveResult>): Methods {
    if results == [] then prev
    else
      var next := Applied(prev, results[..|results| - 1]);
      var r := results[|results| - 1];
      match KnownMethod(r.methodName)
      case None => next
      case Some(m) => next[m := StateOf(r)]
  }

  /** `applyResults`: a copy of the cards, overwritten by each result of a
      known method in turn. */
  method ApplyResults(prev: Methods, results: seq<SolveResult>) returns (next: Methods)
    ensures next == Applied(prev, results)
  {
    next := prev;
    for i := 0 to |results|
      invariant next == Applied(prev, results[..i])
    {
      var r := results[i];
      assert results[..i + 1][..i] == results[..i];
      var key := KnownMethod(r.methodName);
      if key.Some? {
        next := next[key.value := StateOf(r)];
      }
    }
    assert results[..|results|] == results;
  }

  /** Results are stored in order: a second batch applies on top of the first. */
  lemma {:induction false} AppliedAppend(prev: Methods, a: seq<SolveResult>, b: seq<SolveResult>)
    ensures Applied(prev, a + b) == Applied(Applied(prev, a), b)
    decreases |b|
  {
    if b == [] {
      assert a + b == a;
    } else {
      var init := b[..|b| - 1];
      AppliedAppend(prev, a, init);
      assert (a + b)[..|a + b| - 1] == a + init;
      assert (a + b)[|a + b| - 1] == b[|b| - 1];
    }
  }

  /** A method no result names keeps its card, and no card appears for it. */
  lemma {:induction false} Untouched(prev: Methods, results: seq<SolveResult>, m: Method)
    requires forall i :: 0 <= i < |results| ==> KnownMethod(results[i].methodName) != Some(m)
    ensures m in Applied(prev, results) <==> m in prev
    ensures m in prev ==> Applied(prev, results)[m] == prev[m]
  {
    if results != [] {
      Untouched(prev, results[..|results| - 1], m);
    }
  }

  /** A result of an unknown method changes nothing. */
  lemma UnknownIgnored(prev: Methods, a: seq<SolveResult>, r: SolveResult, b: seq<SolveResult>)
    requires KnownMethod(r.methodName).None?
    ensures Applied(prev, a + [r] + b) == Applied(prev, a + b)
  {
    AppliedAppend(prev, a + [r], b);
    AppliedAppend(prev, a, [r]);
    AppliedAppend(prev, a, b);
    assert [r][..0] == [];
  }

  /** The last result for a method is the one its card shows. */
  lemma {:induction false} LastWins(prev: Methods, results: seq<SolveResult>, m: Method, j: nat)
    requires j < |results| && KnownMethod(results[j].methodName) == Some(m)
    requires forall i :: j < i < |results| ==> KnownMethod(results[i].methodName) != Some(m)
    ensures m in Applied(prev, results) && Applied(prev, results)[m] == StateOf(results[j])
  {
    var init := results[..|results| - 1];
    if j == |results| - 1 {
    } else {
      LastWins(prev, init, m, j);
    }
  }

  /** Storing results keeps a card for every method. */
  lemma {:induction false} AppliedComplete(prev: Methods, results: seq<SolveResult>)
    requires Complete(prev)
    ensures Complete(Applied(prev, results))
  {
    if results != [] {
      AppliedComplete(prev, results[..|results| - 1]);
    }
  }

  // -------------------------------------------------- current solution

  /** A card the diagram can draw from: done, with a non-empty vector. */
  predicate Shown(s: MethodState) {
    s.phase == Done && s.vector.Some? && |s.vector.value| > 0
  }

  /** The position of the first drawable card, or -1. */
  function FirstShown(ss: seq<MethodState>): (i: int)
    ensures -1 <= i < |ss|
    ensures i >= 0 ==> Shown(ss[i]) && forall k :: 0 <= k < i ==> !Shown(ss[k])
    ensures i == -1 ==> forall k :: 0 <= k < |ss| ==> !Shown(ss[k])
  {
    if ss == [] then -1
    else if Shown(ss[0]) then 0
    else
      var j := FirstShown(ss[1..]);
      assert forall k :: 1 <= k < |ss| ==> ss[k] == ss[1..][k - 1];
      if j < 0 then -1 else j + 1
  }

  /** The cards in order. */
  function Cards(ms: Methods): (r: seq<MethodState>)
    requires Complete(ms)
    ensures |r| == 3 && r[0] == ms[Cramer] && r[1] == ms[GaussJordan] && r[2] == ms[Library]
  {
    [ms[Cramer], ms[GaussJordan], ms[Library]]
  }

  /** `currentSolution`: the first card, in cramer, gauss-jordan, library
      order, that is done with a non-empty vector. */
  function CurrentSolution(ms: Methods): (r: Option<MethodState>)
    requires Complete(ms)
    ensures r.Some? ==> Shown(r.value)
    ensures r.None? <==> !Shown(ms[Cramer]) && !Shown(ms[GaussJordan]) && !Shown(ms[Library])
    ensures Shown(ms[Cramer]) ==> r == Some(ms[Cramer])
    ensures !Shown(ms[Cramer]) && Shown(ms[GaussJordan]) ==> r == Some(ms[GaussJordan])
  {
    var cs := Cards(ms);
    var i := FirstShown(cs);
    if i < 0 then None else Some(cs[i])
  }

  /** After a reset, a run whose last cramer result has a solution shows
      that solution. */
  lemma CramerShown(results: seq<SolveResult>, j: nat)
    requires j < |results| && results[j].methodName == "cramer" && |results[j].x| > 0
    requires forall i :: j < i < |results| ==> results[i].methodName != "cramer"
    ensures var ms := Applied(ResetMethods(), results);
            Complete(ms) && CurrentSolution(ms) == Some(StateOf(results[j]))
  {
    forall i | j < i < |results|
      ensures KnownMethod(results[i].methodName) != Some(Cramer)
    {
    }
    LastWins(ResetMethods(), results, Cramer, j);
    AppliedComplete(ResetMethods(), results);
  }

  /** Right after a reset nothing is drawn. */
  lemma NothingShownAfterReset()
    ensures CurrentSolution(ResetMethods()) == None
  {
    var ms := ResetMethods();
    assert forall m :: !Shown(ms[m]);
  }
}
