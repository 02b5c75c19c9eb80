/** The solver factory: the three solver kinds, their names, the alias table
    that maps a name to a kind, and the default list. */
module SolverFactory {
  import opened Wrappers
  import opened Text
  import opened Numeric
  import opened Solvers

  datatype SolverKind = Cramer | GaussJordan | Library

  /** Each solver's `name()`. */
  function SolverName(k: SolverKind): (s: string)
    ensures s == "cramer" || s == "gauss-jordan" || s == "library"
  {
    match k
    case Cramer => "cramer"
    case GaussJordan => "gauss-jordan"
    case Library => "library"
  }

  predicate IsCramerAlias(s: string) { s == "cramer" }
  predicate IsGaussJordanAlias(s: string) { s == "gauss" || s == "gauss-jordan" || s == "gauss_jordan" }
  predicate IsLibraryAlias(s: string) { s == "library" || s == "commons" }

  /** `create`: the lower-cased name selects a kind through the alias table;
      any other name is rejected. */
  function Create(name: string): (r: Result<SolverKind>)
    ensures r == Ok(Cramer) <==> IsCramerAlias(ToLower(name))
    ensures r == Ok(GaussJordan) <==> IsGaussJordanAlias(ToLower(name))
    ensures r == Ok(Library) <==> IsLibraryAlias(ToLower(name))
    ensures r.Err? ==> r.error == UnknownName
  {
    var n := ToLower(name);
    if IsCramerAlias(n) then Ok(Cramer)
    else if IsGaussJordanAlias(n) then Ok(GaussJordan)
    else if IsLibraryAlias(n) then Ok(Library)
    else Err(UnknownName)
  }

  /** `defaults()`: one solver of each kind, Cramer first and the library last. */
  function Defaults(): (ds: seq<SolverKind>)
    ensures |ds| == 3 && Cramer in ds && GaussJordan in ds && Library in ds
    ensures ds[0] == Cramer && ds[2] == Library
  {
    [Cramer, GaussJordan, Library]
  }

  /** The default solvers have the names cramer, gauss-jordan and library, in
      that order. */
  lemma DefaultNames()
    ensures seq(3, i requires 0 <= i < 3 => SolverName(Defaults()[i])) == ["cramer", "gauss-jordan", "library"]
  {
  }

  /** Creating a solver from a default solver's name gives a solver of the same
      kind, so of the same name. */
  lemma CreateByName(k: SolverKind)
    ensures Create(SolverName(k)) == Ok(k)
  {
    match k
    case Cramer => assert ToLower("cramer") == "cramer";
    case GaussJordan => assert ToLower("gauss-jordan") == "gauss-jordan";
    case Library => assert ToLower("library") == "library";
  }

  /** The aliases are matched without regard to case. */
  lemma CreateAliases()
    ensures Create("GAUSS") == Ok(GaussJordan)
    ensures Create("Gauss_Jordan") == Ok(GaussJordan)
    ensures Create("Commons") == Ok(Library)
    ensures Create("lu") == Err(UnknownName)
  {
    assert ToLower("GAUSS") == "gauss";
    assert ToLower("Gauss_Jordan") == "gauss_jordan";
    assert ToLower("Commons") == "commons";
    assert ToLower("lu") == "lu";
  }

  /** `Solver.solve` of each kind; the library's LU solve is not modelled, so its
      answer is given. */
  function Solve(k: SolverKind, a: Option<Matrix>, b: Option<Vector>, libraryAnswer: Result<Vector>): (r: Result<Vector>)
    ensures k == Cramer ==> r == CramerResult(a, b)
    ensures k == GaussJordan ==> r == GaussJordanResult(a, b)
    ensures k == Library ==> r == libraryAnswer
  {
    match k
    case Cramer => CramerResult(a, b)
    case GaussJordan => GaussJordanResult(a, b)
    case Library => libraryAnswer
  }
}
