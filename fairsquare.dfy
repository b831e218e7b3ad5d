/**
 * The FairSquare converter of fairsquare_pysmt.py: it turns the encoded
 * probabilistic program (model, program, mutual exclusions, one
 * distribution per input variable, and the sensitive attribute and fairness
 * target) into a density with three fairness queries.
 */
module FairSquare {
  import opened Formulas
  import opened Wrappers

  /** One step of a stepwise distribution: density p on [x1, x2). */
  datatype Step = Step(x1: real, x2: real, p: real)

  /** A tag other than 'G' and 'S', which the converter does not support. */
  type OtherTag = t: string | t != "G" && t != "S" witness ""

  /** A distribution of vdist, by its tag: 'G' (mean, variance), 'S' (steps), or any other tag. */
  datatype Dist =
    | Gaussian(mean: real, variance: real)
    | Stepwise(steps: seq<Step>)
    | Other(tag: OtherTag)

  /** vdist.items(): each input variable with its distribution, in insertion order. */
  type Entry = (string, Dist)

  /**
   * The numerical routines the Gaussian branch relies on: the density term
   * it builds for a variable with the given mean and variance, and
   * norm.ppf(q, mean, sqrt(variance)).
   */
  datatype Numerics = Numerics(gaussianTerm: (string, real, real) -> Expr, quantile: (real, real, real) -> real)

  /** Why a conversion fails. */
  datatype ConvError =
    | Unsupported(msg: string)      // the NotImplementedError for an unknown tag
    | EmptySteps(name: string)      // Plus() over a stepwise distribution with no step
    | InvalidVariance(name: string) // a Gaussian whose variance is not positive
    | EmptyProduct(msg: string)     // Times() over an empty vdist

  /** The weight factor of one variable and the bound pair the converter puts on it. */
  datatype Bounded = Bounded(factor: Expr, lb: real, ub: real)

  /** epsilon = 1e-3 */
  const DefaultEpsilon: real := 1.0 / 1000.0

  /** NumPy's min and max start from +infinity and -infinity. */
  datatype ExtReal = NegInfinity | Finite(r: real) | PosInfinity

  function MinExt(x: ExtReal, y: real): ExtReal
  {
    match x
    case NegInfinity => NegInfinity
    case Finite(r) => Finite(if r <= y then r else y)
    case PosInfinity => Finite(y)
  }

  function MaxExt(x: ExtReal, y: real): ExtReal
  {
    match x
    case NegInfinity => Finite(y)
    case Finite(r) => Finite(if r >= y then r else y)
    case PosInfinity => PosInfinity
  }

  // ---------------------------------------------------------------------
  // The stepwise branch

  /** The smallest left end of the steps. */
  function MinLower(steps: seq<Step>): (m: real)
    requires steps != []
    ensures forall i | 0 <= i < |steps| :: m <= steps[i].x1
    ensures exists i | 0 <= i < |steps| :: m == steps[i].x1
  {
    if |steps| == 1 then steps[0].x1
    else
      var init := steps[..|steps| - 1];
      var m := MinLower(init);
      assert forall i | 0 <= i < |init| :: init[i] == steps[i];
      if m <= steps[|steps| - 1].x1 then m else steps[|steps| - 1].x1
  }

  /** The largest right end of the steps. */
  function MaxUpper(steps: seq<Step>): (m: real)
    requires steps != []
    ensures forall i | 0 <= i < |steps| :: steps[i].x2 <= m
    ensures exists i | 0 <= i < |steps| :: m == steps[i].x2
  {
    if |steps| == 1 then steps[0].x2
    else
      var init := steps[..|steps| - 1];
      var m := MaxUpper(init);
      assert forall i | 0 <= i < |init| :: init[i] == steps[i];
      if m >= steps[|steps| - 1].x2 then m else steps[|steps| - 1].x2
  }

  /** Ite(x1 <= v < x2, p, 0) */
  function StepTerm(v: string, s: Step): (t: Expr)
    ensures forall a :: Value(t, a) == if s.x1 <= a.value(v) < s.x2 then s.p else 0.0
  {
    var cond := And([LE(RealLit(s.x1), Sym(v)), LT(Sym(v), RealLit(s.x2))]);
    AndPair(LE(RealLit(s.x1), Sym(v)), LT(Sym(v), RealLit(s.x2)));
    assert forall a :: Holds(cond, a) <==> s.x1 <= a.value(v) < s.x2 by {
      forall a ensures Holds(cond, a) <==> s.x1 <= a.value(v) < s.x2 {
        assert Holds(LE(RealLit(s.x1), Sym(v)), a) <==> s.x1 <= a.value(v);
        assert Holds(LT(Sym(v), RealLit(s.x2)), a) <==> a.value(v) < s.x2;
      }
    }
    Ite(cond, RealLit(s.p), RealLit(0.0))
  }

  function StepTerms(v: string, steps: seq<Step>): (ts: seq<Expr>)
    ensures |ts| == |steps| && forall i | 0 <= i < |steps| :: ts[i] == StepTerm(v, steps[i])
  {
    seq(|steps|, i requires 0 <= i < |steps| => StepTerm(v, steps[i]))
  }

  /** The total density at x: the sum of p over the steps whose [x1, x2) contains x. */
  function Mass(steps: seq<Step>, x: real): real
  {
    if steps == [] then 0.0
    else Mass(steps[..|steps| - 1], x) + (var s := steps[|steps| - 1]; if s.x1 <= x < s.x2 then s.p else 0.0)
  }

  /** The stepwise factor evaluates to the mass of the steps at the variable's value. */
  lemma {:induction false} StepwiseValue(v: string, steps: seq<Step>, a: Assignment)
    ensures SumOf(StepTerms(v, steps), a) == Mass(steps, a.value(v))
  {
    if steps != [] {
      var m := |steps| - 1;
      assert StepTerms(v, steps)[..m] == StepTerms(v, steps[..m]);
      StepwiseValue(v, steps[..m], a);
    }
  }

  /** No step contains x, so the mass there is zero. */
  lemma {:induction false} MassOutside(steps: seq<Step>, x: real)
    requires forall i | 0 <= i < |steps| :: !(steps[i].x1 <= x < steps[i].x2)
    ensures Mass(steps, x) == 0.0
  {
    if steps != [] {
      var init := steps[..|steps| - 1];
      assert forall i | 0 <= i < |init| :: init[i] == steps[i];
      MassOutside(init, x);
    }
  }

  /**
   * Below the smallest left end and from the largest right end on, the
   * stepwise density is zero: the bound [lb, ub] the converter adds cuts
   * off no mass.
   */
  lemma StepwiseZeroOutsideBounds(v: string, steps: seq<Step>, a: Assignment)
    requires steps != []
    requires a.value(v) < MinLower(steps) || a.value(v) >= MaxUpper(steps)
    ensures Value(Plus(StepTerms(v, steps)), a) == 0.0
  {
    StepwiseValue(v, steps, a);
    MassOutside(steps, a.value(v));
  }

  /** What the 'S' branch yields: Plus of the step terms and [min x1, max x2], or the error of an empty Plus. */
  function StepwiseSpec(v: string, steps: seq<Step>): Result<Bounded, ConvError>
  {
    if steps == [] then Err(EmptySteps(v))
    else Ok(Bounded(Plus(StepTerms(v, steps)), MinLower(steps), MaxUpper(steps)))
  }

  /**
   * The 'S' branch: one Ite term per step while tracking the running
   * minimum of x1 and maximum of x2 from +infinity and -infinity. With no
   * step, pysmt refuses to build the sum.
   */
  method StepwiseFactor(v: string, steps: seq<Step>) returns (r: Result<Bounded, ConvError>)
    ensures r == StepwiseSpec(v, steps)
  {
    var terms: seq<Expr> := [];
    var xmin := PosInfinity;
    var xmax := NegInfinity;
    for i := 0 to |steps|
      invariant terms == StepTerms(v, steps[..i])
      invariant xmin == LowestLeft(steps[..i]) && xmax == HighestRight(steps[..i])
    {
      StepTermsSnoc(v, steps, i);
      LowestLeftSnoc(steps, i);
      HighestRightSnoc(steps, i);
      var s := steps[i];
      terms := terms + [StepTerm(v, s)];
      xmin := MinExt(xmin, s.x1);
      xmax := MaxExt(xmax, s.x2);
    }
    assert steps[..|steps|] == steps;
    if terms == [] {
      r := Err(EmptySteps(v));
    } else {
      r := Ok(Bounded(Plus(terms), xmin.r, xmax.r));
    }
  }

  /** The running minimum of x1 over the steps, from +infinity. */
  function LowestLeft(steps: seq<Step>): ExtReal
  {
    if steps == [] then PosInfinity else Finite(MinLower(steps))
  }

  /** The running maximum of x2 over the steps, from -infinity. */
  function HighestRight(steps: seq<Step>): ExtReal
  {
    if steps == [] then NegInfinity else Finite(MaxUpper(steps))
  }

  /** One iteration of the 'S' loop appends the term of step i. */
  lemma StepTermsSnoc(v: string, steps: seq<Step>, i: nat)
    requires i < |steps|
    ensures StepTerms(v, steps[..i + 1]) == StepTerms(v, steps[..i]) + [StepTerm(v, steps[i])]
  {
  }

  /** One iteration of the 'S' loop folds x1 of step i into the running minimum. */
  lemma LowestLeftSnoc(steps: seq<Step>, i: nat)
    requires i < |steps|
    ensures LowestLeft(steps[..i + 1]) == MinExt(LowestLeft(steps[..i]), steps[i].x1)
  {
    var p := steps[..i + 1];
    assert p[..i] == steps[..i] && p[i] == steps[i];
    if i > 0 {
      assert MinLower(p) == if MinLower(p[..i]) <= p[i].x1 then MinLower(p[..i]) else p[i].x1;
    }
  }

  /** One iteration of the 'S' loop folds x2 of step i into the running maximum. */
  lemma HighestRightSnoc(steps: seq<Step>, i: nat)
    requires i < |steps|
    ensures HighestRight(steps[..i + 1]) == MaxExt(HighestRight(steps[..i]), steps[i].x2)
  {
    var p := steps[..i + 1];
    assert p[..i] == steps[..i] && p[i] == steps[i];
    if i > 0 {
      assert MaxUpper(p) == if MaxUpper(p[..i]) >= p[i].x2 then MaxUpper(p[..i]) else p[i].x2;
    }
  }


  // ---------------------------------------------------------------------
  // The Gaussian branch

  /**
   * The 'G' branch: the density term, and the bounds b = ppf(epsilon / 2)
   * and 2 * mean - b, which lie symmetrically about the mean.
   */
  function GaussianFactor(v: string, mean: real, variance: real, epsilon: real, num: Numerics): (b: Bounded)
    ensures b.factor == num.gaussianTerm(v, mean, variance)
    ensures b.lb == num.quantile(epsilon / 2.0, mean, variance)
    ensures b.ub - mean == mean - b.lb
  {
    var lb := num.quantile(epsilon / 2.0, mean, variance);
    Bounded(num.gaussianTerm(v, mean, variance), lb, 2.0 * mean - lb)
  }

  // ---------------------------------------------------------------------
  // weight_to_pysmt

  /** The factor and bound pair of one vdist entry, or why there is none. */
  function EntrySpec(e: Entry, epsilon: real, num: Numerics): (r: Result<Bounded, ConvError>)
    ensures r.Err? <==> !Supported(e.1)
    ensures e.1.Other? ==> r == Err(Unsupported("Unsupported dist: " + e.1.tag))
    ensures e.1.Gaussian? && e.1.variance <= 0.0 ==> r == Err(InvalidVariance(e.0))
    ensures e.1.Stepwise? && e.1.steps == [] ==> r == Err(EmptySteps(e.0))
  {
    match e.1
    case Gaussian(mean, variance) =>
      if variance <= 0.0 then Err(InvalidVariance(e.0)) else Ok(GaussianFactor(e.0, mean, variance, epsilon, num))
    case Stepwise(steps) => StepwiseSpec(e.0, steps)
    case Other(tag) => Err(Unsupported("Unsupported dist: " + tag))
  }

  /** The bound conjuncts and the factors of the entries, or the first entry's error. */
  function Parts(vdist: seq<Entry>, epsilon: real, num: Numerics): Result<(seq<Expr>, seq<Expr>), ConvError>
  {
    if vdist == [] then Ok(([], []))
    else
      var e := vdist[|vdist| - 1];
      match Parts(vdist[..|vdist| - 1], epsilon, num)
      case Err(err) => Err(err)
      case Ok(parts) =>
        match EntrySpec(e, epsilon, num)
        case Err(err) => Err(err)
        case Ok(b) => Ok((parts.0 + [Within(e.0, b.lb, b.ub)], parts.1 + [b.factor]))
  }

  /** weight_to_pysmt's result: (And(*bounds), Times(*factors)); pysmt refuses Times() with no factor. */
  function WeightSpec(vdist: seq<Entry>, epsilon: real, num: Numerics): Result<(Expr, Expr), ConvError>
  {
    match Parts(vdist, epsilon, num)
    case Err(err) => Err(err)
    case Ok(parts) => if parts.1 == [] then Err(EmptyProduct(NoTimesArguments)) else Ok((And(parts.0), Times(parts.1)))
  }

  /** Once a prefix has failed, the whole list fails with the same error. */
  lemma {:induction false} PartsErrPersists(vdist: seq<Entry>, i: nat, epsilon: real, num: Numerics)
    requires i <= |vdist| && Parts(vdist[..i], epsilon, num).Err?
    ensures Parts(vdist, epsilon, num) == Parts(vdist[..i], epsilon, num)
    decreases |vdist| - i
  {
    if i < |vdist| {
      assert vdist[..i + 1][..i] == vdist[..i];
      PartsErrPersists(vdist, i + 1, epsilon, num);
    } else {
      assert vdist[..i] == vdist;
    }
  }

  /**
   * weight_to_pysmt: one factor and one bound conjunct lb <= v <= ub per
   * vdist entry, in order; an unsupported tag, an empty step list or a
   * variance that is not positive stops the conversion, and so does an
   * empty vdist, whose product has no factor.
   */
  method WeightToPysmt(vdist: seq<Entry>, epsilon: real, num: Numerics) returns (r: Result<(Expr, Expr), ConvError>)
    ensures r == WeightSpec(vdist, epsilon, num)
  {
    var factors: seq<Expr> := [];
    var bounds: seq<Expr> := [];
    for i := 0 to |vdist|
      invariant Parts(vdist[..i], epsilon, num) == Ok((bounds, factors))
    {
      var (v, dist) := vdist[i];
      var entry: Result<Bounded, ConvError>;
      match dist {
        case Gaussian(mean, variance) =>
          if variance <= 0.0 {
            entry := Err(InvalidVariance(v));
          } else {
            entry := Ok(GaussianFactor(v, mean, variance, epsilon, num));
          }
        case Stepwise(steps) =>
          entry := StepwiseFactor(v, steps);
        case Other(tag) =>
          entry := Err(Unsupported("Unsupported dist: " + tag));
      }
      assert vdist[..i + 1][..i] == vdist[..i];
      if entry.Err? {
        PartsErrPersists(vdist, i + 1, epsilon, num);
        return Err(entry.error);
      }
      factors := factors + [entry.value.factor];
      bounds := bounds + [Within(v, entry.value.lb, entry.value.ub)];
    }
    assert vdist[..|vdist|] == vdist;
    if factors == [] {
      return Err(EmptyProduct(NoTimesArguments));
    }
    return Ok((And(bounds), Times(factors)));
  }

  /** An entry the converter can handle. */
  predicate Supported(d: Dist)
  {
    (d.Gaussian? && d.variance > 0.0) || (d.Stepwise? && d.steps != [])
  }

  /** The bound pair of a supported entry. */
  function EntryBounds(e: Entry, epsilon: real, num: Numerics): (lbub: (real, real))
    requires Supported(e.1)
  {
    var b := EntrySpec(e, epsilon, num).value;
    (b.lb, b.ub)
  }

  /** Every variable lies within the bound pair of its entry. */
  predicate WithinEntryBounds(vdist: seq<Entry>, epsilon: real, num: Numerics, a: Assignment)
    requires forall i | 0 <= i < |vdist| :: Supported(vdist[i].1)
  {
    forall i | 0 <= i < |vdist| ::
      EntryBounds(vdist[i], epsilon, num).0 <= a.value(vdist[i].0) <= EntryBounds(vdist[i], epsilon, num).1
  }

  /** The conversion succeeds exactly when every entry is supported. */
  lemma {:induction false} PartsOk(vdist: seq<Entry>, epsilon: real, num: Numerics)
    ensures Parts(vdist, epsilon, num).Ok? <==> forall i | 0 <= i < |vdist| :: Supported(vdist[i].1)
  {
    if vdist != [] {
      var init := vdist[..|vdist| - 1];
      PartsOk(init, epsilon, num);
      assert forall i | 0 <= i < |init| :: init[i] == vdist[i];
    }
  }

  /**
   * A successful conversion has one bound conjunct and one factor per
   * entry: the factor of its entry, and a conjunct that holds exactly when
   * the variable lies within its entry's bound pair.
   */
  lemma {:induction false} PartsShape(vdist: seq<Entry>, epsilon: real, num: Numerics)
    requires Parts(vdist, epsilon, num).Ok?
    ensures
      var parts := Parts(vdist, epsilon, num).value;
      && |parts.0| == |vdist| && |parts.1| == |vdist|
      && forall i | 0 <= i < |vdist| ::
           && EntrySpec(vdist[i], epsilon, num).Ok?
           && parts.1[i] == EntrySpec(vdist[i], epsilon, num).value.factor
           && forall a :: Holds(parts.0[i], a) <==>
                EntrySpec(vdist[i], epsilon, num).value.lb <= a.value(vdist[i].0) <= EntrySpec(vdist[i], epsilon, num).value.ub
  {
    if vdist != [] {
      var init := vdist[..|vdist| - 1];
      assert Parts(init, epsilon, num).Ok?;
      PartsShape(init, epsilon, num);
      assert forall i | 0 <= i < |init| :: init[i] == vdist[i];
    }
  }

  /** The bound conjunction of a successful conversion means "every variable within its bounds". */
  lemma WeightBounds(vdist: seq<Entry>, epsilon: real, num: Numerics, a: Assignment)
    requires vdist != [] && forall i | 0 <= i < |vdist| :: Supported(vdist[i].1)
    ensures WeightSpec(vdist, epsilon, num).Ok?
    ensures Holds(WeightSpec(vdist, epsilon, num).value.0, a) <==> WithinEntryBounds(vdist, epsilon, num, a)
  {
    PartsOk(vdist, epsilon, num);
    PartsShape(vdist, epsilon, num);
  }

  // ---------------------------------------------------------------------
  // convert

  /**
   * What the Encoder extracts from a FairSquare program, with its z3
   * formulas already in this formula language.
   */
  datatype Encoding = Encoding(
    model: Expr, program: Expr, mutex: seq<Expr>, vdist: seq<Entry>,
    sensitiveAttribute: Expr, fairnessTarget: Expr)

  /** The density convert returns: support, weight and queries, without a domain. */
  datatype FairDensity = FairDensity(support: Expr, weight: Expr, queries: seq<Expr>)

  /**
   * [minority, minority & hired, ~minority & hired]: the first query
   * contains the second, and the last two split the hired outcomes.
   */
  function Queries(minority: Expr, hired: Expr): (qs: seq<Expr>)
    ensures |qs| == 3 && qs[0] == minority
    ensures forall a :: Holds(qs[1], a) <==> Holds(minority, a) && Holds(hired, a)
    ensures forall a :: Holds(qs[2], a) <==> !Holds(minority, a) && Holds(hired, a)
    ensures forall a :: Holds(qs[1], a) ==> Holds(qs[0], a)
    ensures forall a :: !(Holds(qs[1], a) && Holds(qs[2], a))
    ensures forall a :: (Holds(qs[1], a) || Holds(qs[2], a)) <==> Holds(hired, a)
  {
    AndPair(minority, hired);
    AndPair(Not(minority), hired);
    [minority, And([minority, hired]), And([Not(minority), hired])]
  }

  /** The program formula: model, program and every mutual exclusion. */
  function ProgramFormula(enc: Encoding): (f: Expr)
    ensures forall a :: Holds(f, a) <==>
      Holds(enc.model, a) && Holds(enc.program, a) && forall i | 0 <= i < |enc.mutex| :: Holds(enc.mutex[i], a)
  {
    var f := And([enc.model, enc.program, And(enc.mutex)]);
    assert forall a :: Holds(f, a) <==>
      Holds(enc.model, a) && Holds(enc.program, a) && Holds(And(enc.mutex), a) by {
      forall a ensures Holds(f, a) <==> Holds(enc.model, a) && Holds(enc.program, a) && Holds(And(enc.mutex), a) {
        assert f.args[0] == enc.model && f.args[1] == enc.program && f.args[2] == And(enc.mutex);
      }
    }
    f
  }

  /**
   * convert: the support is the program formula conjoined with the bounds of
   * weight_to_pysmt (default epsilon 1e-3), the weight is its product of
   * factors, and the queries are those over the sensitive attribute and the
   * fairness target. A failing weight conversion fails the whole conversion.
   */
  method Convert(enc: Encoding, num: Numerics) returns (r: Result<FairDensity, ConvError>)
    ensures r.Err? <==> WeightSpec(enc.vdist, DefaultEpsilon, num).Err?
    ensures r.Err? ==> r.error == WeightSpec(enc.vdist, DefaultEpsilon, num).error
    ensures r.Ok? ==> r.value.weight == WeightSpec(enc.vdist, DefaultEpsilon, num).value.1
    ensures r.Ok? ==> r.value.queries == Queries(enc.sensitiveAttribute, enc.fairnessTarget)
    ensures r.Ok? <==> enc.vdist != [] && forall i | 0 <= i < |enc.vdist| :: Supported(enc.vdist[i].1)
    ensures enc.vdist == [] ==> r == Err(EmptyProduct(NoTimesArguments))
    ensures r.Ok? ==> forall a :: Holds(r.value.support, a) <==>
      Holds(ProgramFormula(enc), a) && WithinEntryBounds(enc.vdist, DefaultEpsilon, num, a)
  {
    var program := ProgramFormula(enc);
    var weighted := WeightToPysmt(enc.vdist, DefaultEpsilon, num);
    PartsOk(enc.vdist, DefaultEpsilon, num);
    if Parts(enc.vdist, DefaultEpsilon, num).Ok? {
      PartsShape(enc.vdist, DefaultEpsilon, num);
    }
    if weighted.Err? {
      return Err(weighted.error);
    }
    var (bounds, weight) := weighted.value;
    forall a ensures Holds(bounds, a) <==> WithinEntryBounds(enc.vdist, DefaultEpsilon, num, a) {
      WeightBounds(enc.vdist, DefaultEpsilon, num, a);
    }
    AndPair(program, bounds);
    var queries := Queries(enc.sensitiveAttribute, enc.fairnessTarget);
    return Ok(FairDensity(And([program, bounds]), weight, queries));
  }
}
