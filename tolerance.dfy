/**
 * Parameter tolerances: construction from keyword arguments with vocabulary
 * validation, the inclusive bound check, and the rejection-sampling loop.
 * Random draws are an input sequence (the values `random.uniform` or
 * `random.gauss` would return); their distribution is not modelled.
 */
module Tolerances {
  import opened Errors

  /** A keyword-argument value as the tolerance options carry it. */
  datatype KwArg = Text(s: string) | Limits(lower: real, upper: real) | Number(r: real)

  /** `limits` and `num_std_dev` are stored as given; only `tol` and `dist` are checked. */
  datatype Tolerance = Tolerance(tol: string, limits: KwArg, dist: string, numDev: KwArg)

  const TYPES: seq<string> := ["DB", "PER"]
  const DISTS: seq<string> := ["UNIFORM", "NORMAL"]
  /** The keys `verify_kwargs` requires before a tolerance is attempted. */
  const KWARGS: seq<string> := ["tol", "limits"]
  /** The keyword parameters `Tolerance.__init__` accepts. */
  const ACCEPTED: set<string> := {"tol", "limits", "dist", "num_std_dev"}

  function UpperChar(c: char): char
  {
    if 'a' <= c <= 'z' then (c as int - 32) as char else c
  }

  /** `str.upper` restricted to ASCII letters. */
  function Upper(s: string): string
  {
    seq(|s|, i requires 0 <= i < |s| => UpperChar(s[i]))
  }

  /**
   * `Tolerance.__init__(tol, limits, dist, num_std_dev)`: both names are
   * upper-cased and checked against their vocabularies, `tol` first.
   */
  function NewTolerance(tol: string, limits: KwArg, dist: string, numDev: KwArg): Result<Tolerance>
  {
    if Upper(tol) !in TYPES then Err(InvalidArgument(Upper(tol), TYPES))
    else if Upper(dist) !in DISTS then Err(InvalidArgument(Upper(dist), DISTS))
    else Ok(Tolerance(Upper(tol), limits, Upper(dist), numDev))
  }

  /** A constructed tolerance always holds an upper-cased kind and distribution from the vocabularies. */
  lemma NewToleranceValid(tol: string, limits: KwArg, dist: string, numDev: KwArg)
    ensures NewTolerance(tol, limits, dist, numDev).Ok? <==> Upper(tol) in TYPES && Upper(dist) in DISTS
    ensures NewTolerance(tol, limits, dist, numDev).Ok? ==>
              var t := NewTolerance(tol, limits, dist, numDev).value;
              t.tol in TYPES && t.dist in DISTS && t.limits == limits && t.numDev == numDev
    ensures NewTolerance(tol, limits, dist, numDev).Ok? ==>
              NewTolerance(tol, limits, dist, numDev).value == Tolerance(Upper(tol), limits, Upper(dist), numDev)
    ensures NewTolerance(tol, limits, dist, numDev).Err? ==>
              NewTolerance(tol, limits, dist, numDev).error.InvalidArgument?
  {
  }

  /** Validation is case-insensitive: names that upper-case alike are treated alike. */
  lemma {:induction false} NewToleranceCaseInsensitive(tol1: string, tol2: string, dist1: string, dist2: string,
                                                       limits: KwArg, numDev: KwArg)
    requires Upper(tol1) == Upper(tol2) && Upper(dist1) == Upper(dist2)
    ensures NewTolerance(tol1, limits, dist1, numDev) == NewTolerance(tol2, limits, dist2, numDev)
  {
  }

  /** The unit test's cases: "invalid_arg" and "invalid_dist" are refused, "dB" is accepted. */
  lemma NewToleranceExamples()
    ensures NewTolerance("invalid_arg", Limits(9.0, 11.0), "uniform", Number(3.0)).Err?
    ensures NewTolerance("dB", Limits(9.0, 11.0), "invalid_dist", Number(3.0)).Err?
    ensures NewTolerance("dB", Limits(8.0, 12.0), "uniform", Number(3.0)).Ok?
  {
    assert Upper("invalid_arg")[0] == 'I';
    assert Upper("invalid_dist")[0] == 'I';
    assert Upper("dB") == "DB";
    assert Upper("uniform") == "UNIFORM";
  }

  /**
   * The tolerance the `Parameter` constructor attaches. Missing `tol` or
   * `limits` makes `verify_kwargs` raise, and an invalid vocabulary makes
   * `validate_arg` raise: both are ValueErrors the constructor swallows, so
   * the parameter simply has no tolerance. An unknown keyword (TypeError) or
   * a non-string `tol`/`dist` (AttributeError on `.upper()`) propagates.
   */
  function FromKwargs(kwargs: map<string, KwArg>): (r: Result<Option<Tolerance>>)
  {
    MissingEmptyIff(KWARGS, kwargs.Keys);
    if Missing(KWARGS, kwargs.Keys) != [] then Ok(None)
    else if !(kwargs.Keys <= ACCEPTED) then Err(UnexpectedKeyword)
    else if !kwargs["tol"].Text? then Err(WrongArgumentType("tol"))
    else
      var dist := if "dist" in kwargs then kwargs["dist"] else Text("uniform");
      var numDev := if "num_std_dev" in kwargs then kwargs["num_std_dev"] else Number(3.0);
      if Upper(kwargs["tol"].s) !in TYPES then Ok(None)
      else if !dist.Text? then Err(WrongArgumentType("dist"))
      else match NewTolerance(kwargs["tol"].s, kwargs["limits"], dist.s, numDev)
        case Ok(t) => Ok(Some(t))
        case Err(_) => Ok(None)
  }

  /** The only errors that escape are the ones that are not ValueErrors; the rest leave no tolerance. */
  lemma FromKwargsOutcomes(kwargs: map<string, KwArg>)
    ensures FromKwargs(kwargs).Err? ==> !IsValueError(FromKwargs(kwargs).error)
    ensures ("tol" !in kwargs || "limits" !in kwargs) ==> FromKwargs(kwargs) == Ok(None)
    ensures kwargs == map[] ==> FromKwargs(kwargs) == Ok(None)
    ensures FromKwargs(kwargs).Ok? && FromKwargs(kwargs).value.Some? ==>
              var t := FromKwargs(kwargs).value.value;
              t.tol in TYPES && t.dist in DISTS && "limits" in kwargs && t.limits == kwargs["limits"]
    ensures FromKwargs(kwargs).Ok? && FromKwargs(kwargs).value.Some? ==>
              var t := FromKwargs(kwargs).value.value;
              && "tol" in kwargs && kwargs["tol"].Text? && t.tol == Upper(kwargs["tol"].s)
              && ("dist" in kwargs ==> kwargs["dist"].Text? && t.dist == Upper(kwargs["dist"].s))
              && ("dist" !in kwargs ==> t.dist == "UNIFORM")
              && t.numDev == (if "num_std_dev" in kwargs then kwargs["num_std_dev"] else Number(3.0))
  {
    MissingEmptyIff(KWARGS, kwargs.Keys);
  }

  /** `_validate_value`: the inclusive bound check. */
  predicate ValidateValue(t: Tolerance, v: real)
    requires t.limits.Limits?
  {
    t.limits.lower <= v && v <= t.limits.upper
  }

  /**
   * `Tolerance.get_value(mean)`: for a normal distribution a mean is required
   * and sigma = (upper - lower) / num_std_dev is computed; then draws are
   * taken until one lies within [lower, upper]. `draws` stands for the
   * successive random values; the rounding to two decimals is not modelled.
   */
  method Sample(t: Tolerance, mean: Option<real>, draws: seq<real>) returns (r: Result<real>)
    ensures t.dist != "UNIFORM" && mean.None? ==> r == Err(MissingMean)
    ensures !t.limits.Limits? && (t.dist == "UNIFORM" || mean.Some?) ==> r == Err(WrongArgumentType("limits"))
    ensures r.Ok? ==> t.limits.Limits? && t.limits.lower <= r.value <= t.limits.upper
    ensures r.Ok? ==> exists k :: 0 <= k < |draws| && draws[k] == r.value &&
                       forall j :: 0 <= j < k ==> !ValidateValue(t, draws[j])
    ensures t.limits.Limits? && r.Err? && r.error == NoValidDraw ==>
              forall j :: 0 <= j < |draws| ==> !ValidateValue(t, draws[j])
    ensures t.dist != "UNIFORM" && mean.Some? && t.limits.Limits? && !t.numDev.Number? ==>
              r == Err(WrongArgumentType("num_std_dev"))
    ensures t.dist != "UNIFORM" && mean.Some? && t.limits.Limits? && t.numDev.Number? && t.numDev.r == 0.0 ==>
              r == Err(ZeroDivision)
    ensures t.limits.Limits? && (t.dist == "UNIFORM" || (mean.Some? && t.numDev.Number? && t.numDev.r != 0.0)) ==>
              (r.Ok? <==> exists j :: 0 <= j < |draws| && ValidateValue(t, draws[j])) &&
              (r.Err? ==> r.error == NoValidDraw)
  {
    if t.dist != "UNIFORM" {
      if mean.None? {
        return Err(MissingMean);
      }
      if !t.limits.Limits? {
        return Err(WrongArgumentType("limits"));
      }
      if !t.numDev.Number? {
        return Err(WrongArgumentType("num_std_dev"));
      }
      if t.numDev.r == 0.0 {
        return Err(ZeroDivision);
      }
    } else if !t.limits.Limits? {
      return Err(WrongArgumentType("limits"));
    }
    var i := 0;
    var valid := false;
    while !valid && i < |draws|
      invariant 0 <= i <= |draws|
      invariant valid ==> 0 < i && ValidateValue(t, draws[i - 1])
      invariant forall j :: 0 <= j < (if valid then i - 1 else i) ==> !ValidateValue(t, draws[j])
      decreases |draws| - i, !valid
    {
      valid := ValidateValue(t, draws[i]);
      i := i + 1;
    }
    if valid {
      r := Ok(draws[i - 1]);
    } else {
      r := Err(NoValidDraw);
    }
  }
}
