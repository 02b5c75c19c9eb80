/** Circuit components: a resistor that refuses non-positive values, and a
    branch of resistors whose total resistance is their sum. */
module Components {
  import opened Wrappers
  import opened Numeric

  datatype Resistor = Resistor(id: string, resistanceOhm: real)

  /** The invariant every constructed resistor satisfies. */
  predicate ValidResistor(r: Resistor) { r.resistanceOhm > 0.0 }

  /** The record's compact constructor: it rejects a resistance of zero or
      below, and otherwise stores both components unchanged. */
  function NewResistor(id: string, resistanceOhm: real): (r: Result<Resistor>)
    ensures r.Ok? <==> resistanceOhm > 0.0
    ensures r.Ok? ==> r.value.id == id && r.value.resistanceOhm == resistanceOhm && ValidResistor(r.value)
    ensures r.Err? ==> r.error == NonPositive
  {
    if resistanceOhm <= 0.0 then Err(NonPositive) else Ok(Resistor(id, resistanceOhm))
  }

  predicate AllValid(rs: seq<Resistor>) {
    forall i :: 0 <= i < |rs| ==> ValidResistor(rs[i])
  }

  /** The resistance values, in list order. */
  function Values(rs: seq<Resistor>): (vs: seq<real>)
    ensures |vs| == |rs| && forall i :: 0 <= i < |rs| ==> vs[i] == rs[i].resistanceOhm
  {
    seq(|rs|, i requires 0 <= i < |rs| => rs[i].resistanceOhm)
  }

  datatype Branch = Branch(id: string, resistors: seq<Resistor>)

  /** `Branch.totalResistance`: the sum of the resistor values. */
  function TotalResistance(b: Branch): real {
    Sum(Values(b.resistors))
  }

  lemma EmptyBranchTotal(id: string)
    ensures TotalResistance(Branch(id, [])) == 0.0
  {
  }

  /** Joining two branches adds their totals. */
  lemma TotalResistanceAppend(id: string, xs: seq<Resistor>, ys: seq<Resistor>)
    ensures TotalResistance(Branch(id, xs + ys)) == TotalResistance(Branch(id, xs)) + TotalResistance(Branch(id, ys))
  {
    assert Values(xs + ys) == Values(xs) + Values(ys);
    SumAppend(Values(xs), Values(ys));
  }

  /** Reordering the resistors does not change the total. */
  lemma {:induction false} TotalResistanceReorder(id: string, xs: seq<Resistor>, ys: seq<Resistor>)
    requires multiset(xs) == multiset(ys)
    ensures TotalResistance(Branch(id, xs)) == TotalResistance(Branch(id, ys))
    decreases |xs|
  {
    if xs == [] {
      assert |ys| == |multiset(ys)| == 0;
    } else {
      var x := xs[|xs| - 1];
      assert x in multiset(ys);
      var i :| 0 <= i < |ys| && ys[i] == x;
      MultisetRemove(xs, ys, i);
      var xs' := xs[..|xs| - 1];
      var ys' := ys[..i] + ys[i + 1..];
      TotalResistanceReorder(id, xs', ys');
      var vs := Values(ys);
      SumRemove(vs, i);
      assert vs[..i] + vs[i + 1..] == Values(ys');
      assert Values(xs)[..|xs| - 1] == Values(xs');
    }
  }

  /** A non-empty branch of valid resistors has a positive total. */
  lemma PositiveTotal(b: Branch)
    requires AllValid(b.resistors) && b.resistors != []
    ensures TotalResistance(b) > 0.0
  {
    var vs := Values(b.resistors);
    assert vs[0] > 0.0;
    SumNonNegative(vs);
  }
}
