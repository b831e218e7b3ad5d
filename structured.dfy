/**
 * The structured benchmark generators of synthetic_structured.py: each takes
 * a size n and returns a Density whose support encodes one Boolean pattern
 * over comparisons of real variables.
 */
module Structured {
  import opened Formulas
  import opened Domains
  import opened Graphs
  import opened Wrappers

  /** ["x0", ..., "x{m-1}"] */
  function XNames(m: nat): (names: seq<string>)
    ensures |names| == m && forall i | 0 <= i < m :: names[i] == XName(i)
  {
    seq(m, i requires 0 <= i < m => XName(i))
  }

  /** ["x", "x0", ..., "x{n-1}"]: the pivot, then its companions. */
  function PivotFirstNames(n: nat): (names: seq<string>)
    ensures |names| == n + 1 && names[0] == "x"
    ensures forall i | 0 <= i < n :: names[i + 1] == XName(i)
  {
    ["x"] + XNames(n)
  }

  /** Different positions carry different names. */
  lemma XNamesDistinct(m: nat)
    ensures Distinct(XNames(m))
  {
    forall i, j | 0 <= i < j < m ensures XNames(m)[i] != XNames(m)[j] {
      if XName(i) == XName(j) {
        XNameInjective(i, j);
      }
    }
  }

  /** Every x_i with i < m is in `names`. */
  predicate HasXNames(names: set<string>, m: nat)
  {
    forall i | 0 <= i < m :: XName(i) in names
  }

  /** Every x_i with i < m is a name Domain.make declares over XNames(m). */
  lemma XNamesDeclared(m: nat, lb: real, ub: real)
    ensures HasXNames(Names(Make([], XNames(m), lb, ub)), m)
  {
    MakeNames([], XNames(m), lb, ub);
    forall i | 0 <= i < m ensures XName(i) in XNames(m) {
      assert XNames(m)[i] == XName(i);
    }
  }

  /**
   * make_domain(n): no Boolean, and the pivot "x" followed by its n
   * companions x0 .. x{n-1}, all bounded by [0, 1].
   */
  function MakeDomain(n: nat): (d: Domain)
    ensures d.bools == [] && |d.reals| == n + 1
    ensures d.reals[0].name == "x" && forall i | 0 <= i < n :: d.reals[i + 1].name == XName(i)
    ensures forall i | 0 <= i < |d.reals| :: d.reals[i].lower == 0.0 && d.reals[i].upper == 1.0
  {
    Make([], PivotFirstNames(n), 0.0, 1.0)
  }

  /** The n + 1 real names of make_domain(n) are distinct. */
  lemma MakeDomainDistinct(n: nat)
    ensures Distinct(RealNames(MakeDomain(n)))
  {
    PivotNamesDistinct(n);
    RealNamesOfMake([], PivotFirstNames(n), 0.0, 1.0);
  }

  /** The pivot differs from every companion, and the companions from each other. */
  lemma PivotNamesDistinct(n: nat)
    ensures Distinct(PivotFirstNames(n))
  {
    XNamesDistinct(n);
    forall i | 0 <= i < n ensures XNames(n)[i] != "x" {
      XNameNotPivot(i);
    }
    DistinctCons("x", XNames(n));
  }

  lemma RealNamesOfMake(bools: seq<string>, names: seq<string>, lb: real, ub: real)
    ensures RealNames(Make(bools, names, lb, ub)) == names
  {
  }

  // ---------------------------------------------------------------------
  // make_distinct_bounds

  /** 0.13 + i * 0.01, as an exact rational. */
  function LowerBound(i: nat): real
  {
    (13 + i) as real / 100.0
  }

  /** 0.89 - i * 0.01, as an exact rational. */
  function UpperBound(i: nat): real
  {
    (89 - i) as real / 100.0
  }

  /** The i-th variable lies in [LowerBound(i), UpperBound(i)], for every i. */
  predicate WithinDistinctBounds(names: seq<string>, a: Assignment)
  {
    forall i | 0 <= i < |names| :: LowerBound(i) <= a.value(names[i]) <= UpperBound(i)
  }

  /**
   * make_distinct_bounds: one staggered bound pair per real variable of the
   * domain, conjoined onto TRUE one comparison at a time.
   */
  method MakeDistinctBounds(domain: Domain) returns (bounds: Expr)
    ensures forall a :: Holds(bounds, a) <==> WithinDistinctBounds(RealNames(domain), a)
    ensures Symbols(bounds) <= Names(domain)
  {
    var variables := RealNames(domain);
    bounds := BoolLit(true);
    for i := 0 to |variables|
      invariant forall a :: Holds(bounds, a) <==> WithinDistinctBounds(variables[..i], a)
      invariant Symbols(bounds) <= Names(domain)
    {
      BoundsStep(bounds, variables, i);
      BoundPairSymbols(bounds, variables[i], LowerBound(i), UpperBound(i), Names(domain));
      var lower := LE(RealLit(LowerBound(i)), Sym(variables[i]));
      var upper := LE(Sym(variables[i]), RealLit(UpperBound(i)));
      bounds := And([bounds, lower]);
      bounds := And([bounds, upper]);
    }
    assert variables[..|variables|] == variables;
  }

  /** Conjoining a bound pair on a declared name mentions no new name. */
  lemma BoundPairSymbols(bounds: Expr, v: string, lb: real, ub: real, names: set<string>)
    requires Symbols(bounds) <= names && v in names
    ensures Symbols(And([And([bounds, LE(RealLit(lb), Sym(v))]), LE(Sym(v), RealLit(ub))])) <= names
  {
    SymbolsOfPair(bounds, LE(RealLit(lb), Sym(v)));
    SymbolsOfPair(And([bounds, LE(RealLit(lb), Sym(v))]), LE(Sym(v), RealLit(ub)));
  }

  /** One iteration of make_distinct_bounds adds the staggered bound pair of variable i. */
  lemma BoundsStep(bounds: Expr, variables: seq<string>, i: nat)
    requires i < |variables|
    requires forall a :: Holds(bounds, a) <==> WithinDistinctBounds(variables[..i], a)
    ensures var lower, upper := LE(RealLit(LowerBound(i)), Sym(variables[i])), LE(Sym(variables[i]), RealLit(UpperBound(i)));
      forall a :: Holds(And([And([bounds, lower]), upper]), a) <==> WithinDistinctBounds(variables[..i + 1], a)
  {
    var lower := LE(RealLit(LowerBound(i)), Sym(variables[i]));
    var upper := LE(Sym(variables[i]), RealLit(UpperBound(i)));
    AndPair(bounds, lower);
    AndPair(And([bounds, lower]), upper);
    forall a ensures Holds(And([And([bounds, lower]), upper]), a) <==> WithinDistinctBounds(variables[..i + 1], a) {
      assert Holds(lower, a) <==> LowerBound(i) <= a.value(variables[i]);
      assert Holds(upper, a) <==> a.value(variables[i]) <= UpperBound(i);
      assert variables[..i + 1][i] == variables[i];
      assert forall k | 0 <= k < i :: variables[..i + 1][k] == variables[..i][k];
    }
  }

  /**
   * The staggered bounds can all be met at once exactly when there are at
   * most 39 variables: from the 40th on, the lower bound 0.52 exceeds the
   * upper bound 0.50.
   */
  lemma DistinctBoundsSatisfiable(names: seq<string>)
    ensures (exists a :: WithinDistinctBounds(names, a)) <==> |names| <= 39
  {
    if |names| <= 39 {
      var a := Assignment(_ => false, _ => 51.0 / 100.0);
      assert WithinDistinctBounds(names, a);
    } else {
      forall a ensures !WithinDistinctBounds(names, a) {
        assert !(LowerBound(39) <= a.value(names[39]) <= UpperBound(39));
      }
    }
  }

  // ---------------------------------------------------------------------
  // xor and mutual_exclusive

  /** [x <= v for v in symbols]: the pivot compared with each companion. */
  function PivotAtoms(n: nat): (ts: seq<Expr>)
    ensures |ts| == n
    ensures forall i, a | 0 <= i < n :: Holds(ts[i], a) <==> a.value("x") <= a.value(XName(i))
    ensures forall i | 0 <= i < n :: Symbols(ts[i]) == {"x", XName(i)}
  {
    seq(n, i requires 0 <= i < n => LE(Sym("x"), Sym(XName(i))))
  }

  /** The sequence in reverse order. */
  function Reversed(s: seq<string>): (r: seq<string>)
    ensures |r| == |s|
    ensures forall i | 0 <= i < |s| :: r[i] == s[|s| - 1 - i]
  {
    if s == [] then [] else [s[|s| - 1]] + Reversed(s[..|s| - 1])
  }

  /** Reversing keeps every element with its multiplicity. */
  lemma {:induction false} ReversedPermutes(s: seq<string>)
    ensures multiset(Reversed(s)) == multiset(s)
  {
    if s != [] {
      ReversedPermutes(s[..|s| - 1]);
      assert s == s[..|s| - 1] + [s[|s| - 1]];
    }
  }

  /** The companions x{n-1} .. x0, then the pivot. */
  function PivotLastNames(n: nat): seq<string>
  {
    Reversed(XNames(n)) + ["x"]
  }

  lemma PivotLastPermutes(n: nat)
    ensures |PivotLastNames(n)| == n + 1 && PivotLastNames(n)[n] == "x"
    ensures multiset(PivotLastNames(n)) == multiset(PivotFirstNames(n))
  {
    ReversedPermutes(XNames(n));
  }

  /** The domain xor and mutual_exclusive return: the companions reversed, then the pivot, all in [0, 1]. */
  function PivotLast(n: nat): Domain
  {
    Make([], PivotLastNames(n), 0.0, 1.0)
  }

  /** PivotLast(n) declares the same variables as make_domain(n), with the pivot last. */
  lemma PivotLastVariables(n: nat)
    ensures PivotLast(n).bools == [] && |PivotLast(n).reals| == n + 1
    ensures multiset(RealNames(PivotLast(n))) == multiset(RealNames(MakeDomain(n)))
    ensures RealNames(PivotLast(n))[n] == "x"
  {
    RealNamesOfMake([], PivotLastNames(n), 0.0, 1.0);
    RealNamesOfMake([], PivotFirstNames(n), 0.0, 1.0);
    PivotLastPermutes(n);
  }

  /** Every variable of PivotLast(n) keeps the bounds [0, 1] of make_domain(n). */
  lemma PivotLastBounds(n: nat)
    ensures forall i | 0 <= i < |PivotLast(n).reals| :: PivotLast(n).reals[i].lower == 0.0 && PivotLast(n).reals[i].upper == 1.0
  {
    var d := PivotLast(n);
    forall i | 0 <= i < |d.reals| ensures d.reals[i].lower == 0.0 && d.reals[i].upper == 1.0 {
      assert d.reals[i] == RealVar(PivotLastNames(n)[i], 0.0, 1.0);
    }
  }

  /** One step of the xor fold: `(acc | t) & ~(acc & t)`. */
  function XorNext(acc: Expr, t: Expr): Expr
  {
    And([Or([acc, t]), Not(And([acc, t]))])
  }

  /** `(acc | t) & ~(acc & t)` is acc exclusive-or t. */
  lemma XorStep(acc: Expr, t: Expr)
    ensures forall a :: Holds(XorNext(acc, t), a) <==> (Holds(acc, a) != Holds(t, a))
  {
    AndPair(Or([acc, t]), Not(And([acc, t])));
    OrPair(acc, t);
    AndPair(acc, t);
  }

  /** One step of the xor fold adds atom k to the parity of atoms 0 .. k - 1. */
  lemma XorFoldStep(f: Expr, terms: seq<Expr>, k: nat)
    requires k < |terms|
    requires forall a :: Holds(f, a) <==> CountHolding(terms[..k], a) % 2 == 1
    ensures forall a :: Holds(XorNext(f, terms[k]), a) <==> CountHolding(terms[..k + 1], a) % 2 == 1
  {
    XorStep(f, terms[k]);
    assert terms[..k + 1] == terms[..k] + [terms[k]];
    forall a ensures CountHolding(terms[..k + 1], a) == CountHolding(terms[..k], a) + (if Holds(terms[k], a) then 1 else 0) {
      CountHoldingSnoc(terms[..k], terms[k], a);
    }
  }

  /** The staggered bounds of make_domain(n) conjoined with a formula over the pivot atoms. */
  lemma PivotSupport(bounds: Expr, f: Expr, n: nat, atoms: Assignment -> bool)
    requires forall a :: Holds(bounds, a) <==> WithinDistinctBounds(RealNames(MakeDomain(n)), a)
    requires forall a :: Holds(f, a) <==> atoms(a)
    ensures forall a :: Holds(And([bounds, f]), a) <==> WithinDistinctBounds(PivotFirstNames(n), a) && atoms(a)
    ensures forall a :: Holds(And([f, bounds]), a) <==> WithinDistinctBounds(PivotFirstNames(n), a) && atoms(a)
  {
    RealNamesOfMake([], PivotFirstNames(n), 0.0, 1.0);
    AndPair(bounds, f);
    AndPair(f, bounds);
  }

  /**
   * xor(n): the staggered bounds conjoined with the left fold
   * xor := (xor | t) & ~(xor & t) over the atoms x <= x_i, from FALSE.
   * The support holds exactly when the bounds hold and an odd number of
   * atoms hold.
   */
  method Xor(n: nat) returns (d: Density)
    ensures d.domain == PivotLast(n) && d.weight == RealLit(1.0)
    ensures forall a :: Holds(d.support, a) <==>
      WithinDistinctBounds(PivotFirstNames(n), a) && CountHolding(PivotAtoms(n), a) % 2 == 1
    ensures Declared(d)
  {
    var domain := MakeDomain(n);
    var bounds := MakeDistinctBounds(domain);
    var terms := PivotAtoms(n);
    var xor := XorFold(terms);
    PivotSupport(bounds, xor, n, a => CountHolding(PivotAtoms(n), a) % 2 == 1);
    PivotAtomsDeclared(n);
    PivotLastDeclares(n);
    AndWithin(bounds, xor, Names(PivotLast(n)));
    d := Density(PivotLast(n), And([bounds, xor]), RealLit(1.0));
  }

  /**
   * The loop of xor: the left fold xor := (xor | t) & ~(xor & t) over the
   * atoms from FALSE holds exactly when an odd number of atoms hold.
   */
  method XorFold(terms: seq<Expr>) returns (xor: Expr)
    ensures forall a :: Holds(xor, a) <==> CountHolding(terms, a) % 2 == 1
    ensures Symbols(xor) <= SymbolsOf(terms)
  {
    xor := BoolLit(false);
    for k := 0 to |terms|
      invariant forall a :: Holds(xor, a) <==> CountHolding(terms[..k], a) % 2 == 1
      invariant Symbols(xor) <= SymbolsOf(terms)
    {
      XorFoldStep(xor, terms, k);
      XorSymbols(xor, terms, k, SymbolsOf(terms));
      xor := XorNext(xor, terms[k]);
    }
    assert terms[..|terms|] == terms;
  }

  /** A fold step of xor mentions only the names of the accumulator and of the next atom. */
  lemma XorSymbols(f: Expr, terms: seq<Expr>, k: nat, names: set<string>)
    requires k < |terms| && Symbols(f) <= names && SymbolsOf(terms) <= names
    ensures Symbols(XorNext(f, terms[k])) <= names
  {
    SymbolsOfContains(terms, k);
    SymbolsOfPair(f, terms[k]);
    SymbolsOfPair(Or([f, terms[k]]), Not(And([f, terms[k]])));
  }

  /** The atoms x <= x_i mention only names of make_domain(n). */
  lemma PivotAtomsDeclared(n: nat)
    ensures SymbolsOf(PivotAtoms(n)) <= Names(MakeDomain(n))
  {
    MakeDomainDeclares(n);
    PivotAtomsWithin(n, Names(MakeDomain(n)));
  }

  lemma PivotAtomsWithin(n: nat, names: set<string>)
    requires "x" in names && HasXNames(names, n)
    ensures SymbolsOf(PivotAtoms(n)) <= names
  {
    SymbolsOfWithin(PivotAtoms(n), names);
  }

  /** make_domain(n) declares the pivot and every companion. */
  lemma MakeDomainDeclares(n: nat)
    ensures "x" in Names(MakeDomain(n)) && HasXNames(Names(MakeDomain(n)), n)
  {
    var names := PivotFirstNames(n);
    MakeNames([], names, 0.0, 1.0);
    assert names[0] == "x";
    forall i | 0 <= i < n ensures XName(i) in names {
      assert names[i + 1] == XName(i);
    }
  }

  /** The flipped domain declares the same names as make_domain(n). */
  lemma PivotLastDeclares(n: nat)
    ensures Names(PivotLast(n)) == Names(MakeDomain(n))
  {
    PivotLastVariables(n);
    forall x ensures x in RealNames(PivotLast(n)) <==> x in RealNames(MakeDomain(n)) {
      assert x in RealNames(PivotLast(n)) <==> x in multiset(RealNames(PivotLast(n)));
      assert x in RealNames(MakeDomain(n)) <==> x in multiset(RealNames(MakeDomain(n)));
    }
  }

  /**
   * The pairs (p, q), p < q, that nested loops over i and then j > i have
   * visited before reaching (i, j): for those, fs[p] and fs[q] do not both hold.
   */
  predicate ExcludedBefore(fs: seq<Expr>, i: nat, j: nat, a: Assignment)
  {
    forall p, q | 0 <= p < q < |fs| && (p < i || (p == i && q < j)) :: !(Holds(fs[p], a) && Holds(fs[q], a))
  }

  /**
   * The nested loop shared by mutual_exclusive and dual: for every i < j,
   * conjoin ~terms[i] | ~terms[j] onto the accumulated formula.
   */
  method PairwiseExclusion(start: Expr, terms: seq<Expr>) returns (f: Expr)
    ensures forall a :: Holds(f, a) <==> Holds(start, a) && NoTwoHold(terms, a)
    ensures Symbols(f) <= Symbols(start) + SymbolsOf(terms)
  {
    f := start;
    for i := 0 to |terms|
      invariant forall a :: Holds(f, a) <==> Holds(start, a) && ExcludedBefore(terms, i, i + 1, a)
      invariant Symbols(f) <= Symbols(start) + SymbolsOf(terms)
    {
      for j := i + 1 to |terms|
        invariant forall a :: Holds(f, a) <==> Holds(start, a) && ExcludedBefore(terms, i, j, a)
        invariant Symbols(f) <= Symbols(start) + SymbolsOf(terms)
      {
        ExclusionStep(f, start, terms, i, j);
        ExclusionSymbols(f, terms, i, j, Symbols(start) + SymbolsOf(terms));
        f := And([f, Or([Not(terms[i]), Not(terms[j])])]);
      }
      ExclusionRow(f, start, terms, i);
    }
    ExclusionDone(f, start, terms);
  }

  /** Conjoining ~terms[i] | ~terms[j] excludes the pair (i, j) as well. */
  lemma ExclusionStep(f: Expr, start: Expr, terms: seq<Expr>, i: nat, j: nat)
    requires i < j < |terms|
    requires forall a :: Holds(f, a) <==> Holds(start, a) && ExcludedBefore(terms, i, j, a)
    ensures forall a :: Holds(And([f, Or([Not(terms[i]), Not(terms[j])])]), a) <==>
      Holds(start, a) && ExcludedBefore(terms, i, j + 1, a)
  {
    var clause := Or([Not(terms[i]), Not(terms[j])]);
    AndPair(f, clause);
    OrPair(Not(terms[i]), Not(terms[j]));
  }

  /** The clause ~terms[i] | ~terms[j] mentions only names of the terms. */
  lemma ExclusionSymbols(f: Expr, terms: seq<Expr>, i: nat, j: nat, names: set<string>)
    requires i < j < |terms| && Symbols(f) <= names && SymbolsOf(terms) <= names
    ensures Symbols(And([f, Or([Not(terms[i]), Not(terms[j])])])) <= names
  {
    SymbolsOfContains(terms, i);
    SymbolsOfContains(terms, j);
    SymbolsOfPair(Not(terms[i]), Not(terms[j]));
    SymbolsOfPair(f, Or([Not(terms[i]), Not(terms[j])]));
  }

  /** Finishing row i is starting row i + 1. */
  lemma ExclusionRow(f: Expr, start: Expr, terms: seq<Expr>, i: nat)
    requires i < |terms|
    requires forall a :: Holds(f, a) <==> Holds(start, a) && ExcludedBefore(terms, i, |terms|, a)
    ensures forall a :: Holds(f, a) <==> Holds(start, a) && ExcludedBefore(terms, i + 1, i + 2, a)
  {
  }

  /** After the last row every pair is excluded. */
  lemma ExclusionDone(f: Expr, start: Expr, terms: seq<Expr>)
    requires forall a :: Holds(f, a) <==> Holds(start, a) && ExcludedBefore(terms, |terms|, |terms| + 1, a)
    ensures forall a :: Holds(f, a) <==> Holds(start, a) && NoTwoHold(terms, a)
  {
  }

  /** Pairwise exclusion together with the disjunction: exactly one term holds. */
  lemma ExactlyOneTerm(f: Expr, terms: seq<Expr>)
    requires forall a :: Holds(f, a) <==> NoTwoHold(terms, a)
    ensures forall a :: Holds(And([f, Or(terms)]), a) <==> CountHolding(terms, a) == 1
  {
    AndPair(f, Or(terms));
    forall a ensures Holds(And([f, Or(terms)]), a) <==> CountHolding(terms, a) == 1 {
      ExactlyOne(terms, a);
    }
  }

  /**
   * mutual_exclusive(n): pairwise "not both" over the atoms x <= x_i and
   * their disjunction, with the staggered bounds. The support holds exactly
   * when the bounds hold and exactly one atom holds.
   */
  method MutualExclusive(n: nat) returns (d: Density)
    ensures d.domain == PivotLast(n) && d.weight == RealLit(1.0)
    ensures forall a :: Holds(d.support, a) <==>
      WithinDistinctBounds(PivotFirstNames(n), a) && CountHolding(PivotAtoms(n), a) == 1
    ensures Declared(d)
  {
    var domain := MakeDomain(n);
    var bounds := MakeDistinctBounds(domain);
    var terms := PivotAtoms(n);
    var disjunction := PairwiseExclusion(BoolLit(true), terms);
    ExactlyOneTerm(disjunction, terms);
    PivotAtomsDeclared(n);
    PivotLastDeclares(n);
    AndWithin(disjunction, Or(terms), Names(MakeDomain(n)));
    AndWithin(And([disjunction, Or(terms)]), bounds, Names(PivotLast(n)));
    disjunction := And([disjunction, Or(terms)]);
    PivotSupport(bounds, disjunction, n, a => CountHolding(PivotAtoms(n), a) == 1);
    d := Density(PivotLast(n), And([disjunction, bounds]), RealLit(1.0));
  }

  /**
   * Witness for the pivot problems: x = x0 = 0.88 and every other companion
   * at 0.51, so the first atom holds and no other one does.
   */
  function OneAtomPoint(): Assignment
  {
    Assignment(_ => false, v => if v == "x" || v == XName(0) then 88.0 / 100.0 else 51.0 / 100.0)
  }

  /** Only the first companion takes the pivot's value 0.88. */
  lemma OneAtomPointValue(i: nat)
    ensures OneAtomPoint().value(XName(i)) == if i == 0 then 88.0 / 100.0 else 51.0 / 100.0
  {
    XNameNotPivot(i);
    if XName(i) == XName(0) { XNameInjective(i, 0); }
  }

  lemma StaggeredBoundsMeet(i: nat)
    requires 1 <= i <= 38
    ensures LowerBound(i) <= (if i == 1 then 88.0 / 100.0 else 51.0 / 100.0) <= UpperBound(i)
  {
    assert LowerBound(i) * 100.0 == (13 + i) as real;
    assert UpperBound(i) * 100.0 == (89 - i) as real;
  }

  lemma OneAtomPointPivotBound(n: nat)
    ensures LowerBound(0) <= OneAtomPoint().value(PivotFirstNames(n)[0]) <= UpperBound(0)
  {
    assert PivotFirstNames(n)[0] == "x";
  }

  lemma OneAtomPointCompanionBound(n: nat, i: nat)
    requires n <= 38 && 1 <= i <= n
    ensures LowerBound(i) <= OneAtomPoint().value(PivotFirstNames(n)[i]) <= UpperBound(i)
  {
    var v := PivotFirstNames(n)[i];
    assert v == XName(i - 1);
    OneAtomPointValue(i - 1);
    assert OneAtomPoint().value(v) == if i == 1 then 88.0 / 100.0 else 51.0 / 100.0;
    StaggeredBoundsMeet(i);
  }

  lemma OneAtomPointBounds(n: nat)
    requires n <= 38
    ensures WithinDistinctBounds(PivotFirstNames(n), OneAtomPoint())
  {
    var names := PivotFirstNames(n);
    forall i | 0 <= i < |names| ensures LowerBound(i) <= OneAtomPoint().value(names[i]) <= UpperBound(i) {
      if i == 0 {
        OneAtomPointPivotBound(n);
      } else {
        OneAtomPointCompanionBound(n, i);
      }
    }
  }

  lemma OneAtomPointCount(n: nat)
    requires 1 <= n
    ensures CountHolding(PivotAtoms(n), OneAtomPoint()) == 1
  {
    var a := OneAtomPoint();
    var terms := PivotAtoms(n);
    forall i | 0 <= i < n ensures Holds(terms[i], a) <==> i == 0 {
      OneAtomPointValue(i);
    }
    ExactlyOne(terms, a);
  }

  /**
   * xor(n) and mutual_exclusive(n) have a satisfiable support exactly for
   * 1 <= n <= 38: with no atoms the fold is FALSE, and from 39 companions on
   * the staggered bounds cannot all be met.
   */
  lemma PivotProblemsSatisfiable(n: nat)
    ensures (exists a :: WithinDistinctBounds(PivotFirstNames(n), a) && CountHolding(PivotAtoms(n), a) % 2 == 1)
         <==> 1 <= n <= 38
    ensures (exists a :: WithinDistinctBounds(PivotFirstNames(n), a) && CountHolding(PivotAtoms(n), a) == 1)
         <==> 1 <= n <= 38
  {
    DistinctBoundsSatisfiable(PivotFirstNames(n));
    if 1 <= n <= 38 {
      OneAtomPointBounds(n);
      OneAtomPointCount(n);
    } else if n == 0 {
      assert PivotAtoms(n) == [];
    }
  }

  // ---------------------------------------------------------------------
  // dual

  /** [x_{2i} <= x_{2i+1} for i in range(n)] */
  function PairAtoms(n: nat): (ts: seq<Expr>)
    ensures |ts| == n
    ensures forall i, a | 0 <= i < n :: Holds(ts[i], a) <==> a.value(XName(2 * i)) <= a.value(XName(2 * i + 1))
    ensures forall i | 0 <= i < n :: Symbols(ts[i]) == {XName(2 * i), XName(2 * i + 1)}
  {
    seq(n, i requires 0 <= i < n => LE(Sym(XName(2 * i)), Sym(XName(2 * i + 1))))
  }

  /**
   * dual(n): 2n reals in [0, 1] paired up; the support holds exactly when
   * the bounds hold and exactly one pair x_{2i} <= x_{2i+1} holds.
   */
  method Dual(n: nat) returns (d: Density)
    ensures d.domain == Make([], XNames(2 * n), 0.0, 1.0) && d.weight == RealLit(1.0)
    ensures forall a :: Holds(d.support, a) <==> InBounds(d.domain, a) && CountHolding(PairAtoms(n), a) == 1
    ensures Declared(d)
  {
    var domain := Make([], XNames(2 * n), 0.0, 1.0);
    var terms := PairAtoms(n);
    var disjunction := PairwiseExclusion(Or(terms), terms);
    ExactlyOneWithin(disjunction, terms, domain);
    DualDeclared(n, disjunction);
    d := Density(domain, And([disjunction, Bounds(domain)]), RealLit(1.0));
  }

  /** The density dual builds mentions only the variables it declares. */
  lemma DualDeclared(n: nat, disjunction: Expr)
    requires Symbols(disjunction) <= Symbols(Or(PairAtoms(n))) + SymbolsOf(PairAtoms(n))
    ensures var domain := Make([], XNames(2 * n), 0.0, 1.0);
      Declared(Density(domain, And([disjunction, Bounds(domain)]), RealLit(1.0)))
  {
    var domain := Make([], XNames(2 * n), 0.0, 1.0);
    XNamesDeclared(2 * n, 0.0, 1.0);
    PairAtomsWithin(n, disjunction, Names(domain));
    AndWithin(disjunction, Bounds(domain), Names(domain));
  }

  /** The atoms x_{2i} <= x_{2i+1}, and a formula built from them, mention only x0 .. x{2n-1}. */
  lemma PairAtomsWithin(n: nat, f: Expr, names: set<string>)
    requires HasXNames(names, 2 * n)
    requires Symbols(f) <= Symbols(Or(PairAtoms(n))) + SymbolsOf(PairAtoms(n))
    ensures Symbols(f) <= names
  {
    SymbolsOfWithin(PairAtoms(n), names);
  }

  /** The disjunction with pairwise exclusion, within the domain bounds: exactly one term holds. */
  lemma ExactlyOneWithin(f: Expr, terms: seq<Expr>, domain: Domain)
    requires forall a :: Holds(f, a) <==> Holds(Or(terms), a) && NoTwoHold(terms, a)
    ensures forall a :: Holds(And([f, Bounds(domain)]), a) <==> InBounds(domain, a) && CountHolding(terms, a) == 1
  {
    AndPair(f, Bounds(domain));
    forall a ensures Holds(f, a) <==> CountHolding(terms, a) == 1 {
      ExactlyOne(terms, a);
    }
  }

  // ---------------------------------------------------------------------
  // and_overlap

  /** The values of x0 .. x{n-1} never decrease. */
  predicate NonDecreasing(a: Assignment, n: nat)
  {
    forall i, j | 0 <= i <= j < n :: a.value(XName(i)) <= a.value(XName(j))
  }

  /** Neighbouring comparisons chain into the whole order. */
  lemma {:induction false} ChainIsNonDecreasing(a: Assignment, n: nat)
    requires forall i | 0 <= i < n - 1 :: a.value(XName(i)) <= a.value(XName(i + 1))
    ensures NonDecreasing(a, n)
  {
    if n > 1 {
      ChainIsNonDecreasing(a, n - 1);
      forall i | 0 <= i <= n - 1 ensures a.value(XName(i)) <= a.value(XName(n - 1)) {
        if i < n - 1 {
          assert a.value(XName(i)) <= a.value(XName(n - 2));
        }
      }
    }
  }

  /** The number of neighbouring pairs among n variables. */
  function ChainLength(n: nat): nat
  {
    if n == 0 then 0 else n - 1
  }

  /** [x_i <= x_{i+1} for i in range(n - 1)] */
  function ChainAtoms(n: nat): (ts: seq<Expr>)
    ensures |ts| == ChainLength(n)
    ensures forall i, a | 0 <= i < ChainLength(n) :: Holds(ts[i], a) <==> a.value(XName(i)) <= a.value(XName(i + 1))
    ensures forall i | 0 <= i < ChainLength(n) :: Symbols(ts[i]) == {XName(i), XName(i + 1)}
  {
    seq(ChainLength(n), i requires 0 <= i < ChainLength(n) => LE(Sym(XName(i)), Sym(XName(i + 1))))
  }

  /** The neighbouring comparisons mention only x0 .. x{n-1}. */
  lemma ChainAtomsWithin(n: nat, names: set<string>)
    requires HasXNames(names, n)
    ensures SymbolsOf(ChainAtoms(n)) <= names
  {
    SymbolsOfWithin(ChainAtoms(n), names);
  }

  /** The conjunction of the neighbouring comparisons is the whole order. */
  lemma ChainHolds(n: nat, a: Assignment)
    ensures Holds(And(ChainAtoms(n)), a) <==> NonDecreasing(a, n)
  {
    var terms := ChainAtoms(n);
    if Holds(And(terms), a) {
      forall i | 0 <= i < n - 1 ensures a.value(XName(i)) <= a.value(XName(i + 1)) {
        assert Holds(terms[i], a);
      }
      ChainIsNonDecreasing(a, n);
    }
  }

  /**
   * and_overlap(n): the n - 1 comparisons x_i <= x_{i+1}, with the domain
   * bounds. The support holds exactly when the bounds hold and x0 .. x{n-1}
   * are non-decreasing.
   */
  function AndOverlap(n: nat): (d: Density)
    ensures d.domain == Make([], XNames(n), 0.0, 1.0) && d.weight == RealLit(1.0)
    ensures d.support.And? && |d.support.args| == 2
    ensures d.support.args[0].And? && |d.support.args[0].args| == ChainLength(n)
    ensures forall a :: Holds(d.support, a) <==> InBounds(d.domain, a) && NonDecreasing(a, n)
    ensures Declared(d)
  {
    var domain := Make([], XNames(n), 0.0, 1.0);
    XNamesDeclared(n, 0.0, 1.0);
    ChainAtomsWithin(n, Names(domain));
    AndWithin(And(ChainAtoms(n)), Bounds(domain), Names(domain));
    AndPair(And(ChainAtoms(n)), Bounds(domain));
    assert forall a :: Holds(And(ChainAtoms(n)), a) <==> NonDecreasing(a, n) by {
      forall a { ChainHolds(n, a); }
    }
    Density(domain, And([And(ChainAtoms(n)), Bounds(domain)]), RealLit(1.0))
  }

  // ---------------------------------------------------------------------
  // make_from_graph

  function Abs(x: real): real
  {
    if x < 0.0 then -x else x
  }

  /** (x_i + 1 <= x_j) | (x_j <= x_i - 1): the two variables are at least 1 apart. */
  function SeparationClause(i: nat, j: nat): (c: Expr)
    ensures forall a :: Holds(c, a) <==> Abs(a.value(XName(i)) - a.value(XName(j))) >= 1.0
  {
    var xi, xj := Sym(XName(i)), Sym(XName(j));
    var above, below := LE(Plus([xi, RealLit(1.0)]), xj), LE(xj, Minus(xi, RealLit(1.0)));
    PlusPair(xi, RealLit(1.0));
    OrPair(above, below);
    assert forall a :: Holds(Or([above, below]), a) <==> Abs(a.value(XName(i)) - a.value(XName(j))) >= 1.0 by {
      forall a ensures Holds(Or([above, below]), a) <==> Abs(a.value(XName(i)) - a.value(XName(j))) >= 1.0 {
        assert Holds(above, a) <==> a.value(XName(i)) + 1.0 <= a.value(XName(j));
        assert Holds(below, a) <==> a.value(XName(j)) <= a.value(XName(i)) - 1.0;
      }
    }
    Or([above, below])
  }

  /** A separation clause mentions its two variables and nothing else. */
  lemma SeparationSymbols(i: nat, j: nat)
    ensures Symbols(SeparationClause(i, j)) == {XName(i), XName(j)}
  {
    var xi, xj := Sym(XName(i)), Sym(XName(j));
    SymbolsOfPair(xi, RealLit(1.0));
    SymbolsOfPair(LE(Plus([xi, RealLit(1.0)]), xj), LE(xj, Minus(xi, RealLit(1.0))));
  }

  /** One clause per edge mentions only the variables of the graph's nodes. */
  lemma ClausesWithin(g: Graph, clauses: seq<Expr>, names: set<string>)
    requires forall k | 0 <= k < |g.edges| :: g.edges[k].0 < |g.nodes| && g.edges[k].1 < |g.nodes|
    requires |clauses| == |g.edges| && forall k | 0 <= k < |g.edges| :: clauses[k] == SeparationClause(g.edges[k].0, g.edges[k].1)
    requires HasXNames(names, |g.nodes|)
    ensures SymbolsOf(clauses) <= names
  {
    forall k | 0 <= k < |clauses| ensures Symbols(clauses[k]) <= names {
      ClauseWithin(g.edges[k].0, g.edges[k].1, |g.nodes|, names);
    }
    SymbolsOfWithin(clauses, names);
  }

  lemma ClauseWithin(i: nat, j: nat, m: nat, names: set<string>)
    requires i < m && j < m && HasXNames(names, m)
    ensures Symbols(SeparationClause(i, j)) <= names
  {
    SeparationSymbols(i, j);
  }

  /** The density make_from_graph builds mentions only the variables it declares. */
  lemma GraphDeclared(g: Graph, clauses: seq<Expr>)
    requires forall k | 0 <= k < |g.edges| :: g.edges[k].0 < |g.nodes| && g.edges[k].1 < |g.nodes|
    requires |clauses| == |g.edges| && forall k | 0 <= k < |g.edges| :: clauses[k] == SeparationClause(g.edges[k].0, g.edges[k].1)
    ensures var domain := Make([], XNames(|g.nodes|), -1.0, 1.0);
      Declared(Density(domain, And([And(clauses), Bounds(domain)]), RealLit(1.0)))
  {
    var domain := Make([], XNames(|g.nodes|), -1.0, 1.0);
    XNamesDeclared(|g.nodes|, -1.0, 1.0);
    ClausesWithin(g, clauses, Names(domain));
    AndWithin(And(clauses), Bounds(domain), Names(domain));
  }

  /** The two variables of an edge are at least 1 apart at `a`. */
  predicate Separated(a: Assignment, e: Edge)
  {
    Abs(a.value(XName(e.0)) - a.value(XName(e.1))) >= 1.0
  }

  /**
   * make_from_graph: one real in [-1, 1] per node of the graph and one
   * separation clause per edge, in edge order. Node labels index the list of
   * variables, so every endpoint must be below the number of nodes.
   */
  function MakeFromGraph(g: Graph): (d: Density)
    requires forall k | 0 <= k < |g.edges| :: g.edges[k].0 < |g.nodes| && g.edges[k].1 < |g.nodes|
    ensures d.domain == Make([], XNames(|g.nodes|), -1.0, 1.0) && d.weight == RealLit(1.0)
    ensures d.support.And? && |d.support.args| == 2
    ensures d.support.args[0].And? && |d.support.args[0].args| == |g.edges|
    ensures forall a :: Holds(d.support, a) <==>
      InBounds(d.domain, a) && forall k | 0 <= k < |g.edges| :: Separated(a, g.edges[k])
    ensures Declared(d)
  {
    var domain := Make([], XNames(|g.nodes|), -1.0, 1.0);
    var clauses := seq(|g.edges|, k requires 0 <= k < |g.edges| => SeparationClause(g.edges[k].0, g.edges[k].1));
    GraphDeclared(g, clauses);
    AndPair(And(clauses), Bounds(domain));
    assert forall a :: Holds(And(clauses), a) <==> forall k | 0 <= k < |g.edges| :: Separated(a, g.edges[k]) by {
      forall a ensures Holds(And(clauses), a) <==> forall k | 0 <= k < |g.edges| :: Separated(a, g.edges[k]) {
        assert forall k | 0 <= k < |g.edges| :: Holds(clauses[k], a) <==> Separated(a, g.edges[k]);
      }
    }
    Density(domain, And([And(clauses), Bounds(domain)]), RealLit(1.0))
  }

  // ---------------------------------------------------------------------
  // univariate

  /** The triangular density centred at 0: 1 - |v| inside (-1, 1), else 0. */
  function Triangle(v: real): real
  {
    if -1.0 < v < 1.0 then 1.0 - Abs(v) else 0.0
  }

  /** The weight term univariate builds for one variable. */
  function TriangleTerm(x: Expr): (t: Expr)
    ensures forall a :: Value(t, a) == Triangle(Value(x, a))
  {
    var inside := And([LT(RealLit(-1.0), x), LT(x, RealLit(1.0))]);
    var rising, falling := Plus([x, RealLit(1.0)]), Plus([Times([x, RealLit(-1.0)]), RealLit(1.0)]);
    PlusPair(x, RealLit(1.0));
    PlusPair(Times([x, RealLit(-1.0)]), RealLit(1.0));
    TimesPair(x, RealLit(-1.0));
    AndPair(LT(RealLit(-1.0), x), LT(x, RealLit(1.0)));
    var t := Ite(inside, Ite(LT(x, RealLit(0.0)), rising, falling), RealLit(0.0));
    assert forall a :: Value(t, a) == Triangle(Value(x, a)) by {
      forall a ensures Value(t, a) == Triangle(Value(x, a)) {
        assert Holds(inside, a) <==> -1.0 < Value(x, a) < 1.0;
        assert Holds(LT(x, RealLit(0.0)), a) <==> Value(x, a) < 0.0;
        assert Value(rising, a) == Value(x, a) + 1.0;
        assert Value(falling, a) == Value(x, a) * -1.0 + 1.0;
      }
    }
    t
  }

  /** The triangular term of a variable mentions that variable only. */
  lemma TriangleTermSymbols(v: string)
    ensures Symbols(TriangleTerm(Sym(v))) == {v}
  {
    var x := Sym(v);
    var inside := And([LT(RealLit(-1.0), x), LT(x, RealLit(1.0))]);
    var rising, falling := Plus([x, RealLit(1.0)]), Plus([Times([x, RealLit(-1.0)]), RealLit(1.0)]);
    assert TriangleTerm(x) == Ite(inside, Ite(LT(x, RealLit(0.0)), rising, falling), RealLit(0.0));
    InsideSymbols(v);
    BranchSymbols(v);
  }

  lemma InsideSymbols(v: string)
    ensures Symbols(And([LT(RealLit(-1.0), Sym(v)), LT(Sym(v), RealLit(1.0))])) == {v}
  {
    SymbolsOfPair(LT(RealLit(-1.0), Sym(v)), LT(Sym(v), RealLit(1.0)));
  }

  lemma BranchSymbols(v: string)
    ensures Symbols(Ite(LT(Sym(v), RealLit(0.0)), Plus([Sym(v), RealLit(1.0)]), Plus([Times([Sym(v), RealLit(-1.0)]), RealLit(1.0)]))) == {v}
  {
    var x := Sym(v);
    assert Symbols(LT(x, RealLit(0.0))) == {v};
    SymbolsOfPair(x, RealLit(1.0));
    SymbolsOfPair(x, RealLit(-1.0));
    SymbolsOfPair(Times([x, RealLit(-1.0)]), RealLit(1.0));
    assert Symbols(Times([x, RealLit(-1.0)])) == {v};
    assert Symbols(Plus([x, RealLit(1.0)])) == {v};
    assert Symbols(Plus([Times([x, RealLit(-1.0)]), RealLit(1.0)])) == {v};
  }

  /** The triangular density of x_i at `a`, as a function of i. */
  function TriangleAt(a: Assignment): nat -> real
  {
    (i: nat) => Triangle(a.value(XName(i)))
  }

  /** Product of the triangular densities of x0 .. x{n-1}. */
  function TriangleProduct(a: Assignment, n: nat): real
  {
    Product(TriangleAt(a), n)
  }

  /** [triangle(x_i) for i in range(n)] */
  function TriangleTerms(n: nat): (ts: seq<Expr>)
    ensures |ts| == n
    ensures forall i | 0 <= i < n :: Symbols(ts[i]) == {XName(i)}
  {
    assert forall i | 0 <= i < n :: Symbols(TriangleTerm(Sym(XName(i)))) == {XName(i)} by {
      forall i | 0 <= i < n {
        TriangleTermSymbols(XName(i));
      }
    }
    seq(n, i requires 0 <= i < n => TriangleTerm(Sym(XName(i))))
  }

  /** The weight terms multiply to the product of the triangular densities, which is never negative. */
  lemma TriangleTermsValue(a: Assignment, n: nat)
    ensures ProductOf(TriangleTerms(n), a) == TriangleProduct(a, n)
    ensures TriangleProduct(a, n) >= 0.0
  {
    var ts, f := TriangleTerms(n), TriangleAt(a);
    forall i | 0 <= i < n ensures Value(ts[i], a) == f(i) && f(i) >= 0.0 {
      assert ts[i] == TriangleTerm(Sym(XName(i)));
    }
    ProductOfValues(ts, a, f);
    ProductOfNonNegative(f, n);
  }

  /** [0.5 < x_i for i in range(n)] */
  function AboveHalf(n: nat): (ts: seq<Expr>)
    ensures |ts| == n
    ensures forall i, a | 0 <= i < n :: Holds(ts[i], a) <==> a.value(XName(i)) > 0.5
    ensures forall i | 0 <= i < n :: Symbols(ts[i]) == {XName(i)}
  {
    seq(n, i requires 0 <= i < n => LT(RealLit(0.5), Sym(XName(i))))
  }

  /** The support and the weight of univariate(n) mention only x0 .. x{n-1}. */
  lemma UnivariateWithin(n: nat, names: set<string>)
    requires HasXNames(names, n)
    ensures SymbolsOf(AboveHalf(n)) <= names && SymbolsOf(TriangleTerms(n)) <= names
  {
    SymbolsOfWithin(AboveHalf(n), names);
    SymbolsOfWithin(TriangleTerms(n), names);
  }

  /** The density univariate(n) builds mentions only the variables it declares. */
  lemma UnivariateDeclared(n: nat)
    ensures Declared(Density(Make([], XNames(n), -2.0, 2.0), And(AboveHalf(n)), Times(TriangleTerms(n))))
  {
    XNamesDeclared(n, -2.0, 2.0);
    UnivariateWithin(n, Names(Make([], XNames(n), -2.0, 2.0)));
  }

  /**
   * univariate(n): n reals in [-2, 2]; the support asks each to exceed 0.5
   * and the weight is the product of their triangular densities, which is
   * never negative. With n = 0 the product has no factor and pysmt raises.
   */
  function Univariate(n: nat): (r: Result<Density, string>)
    ensures r.Err? <==> n == 0
    ensures r.Err? ==> r.error == NoTimesArguments
    ensures r.Ok? ==> r.value.domain == Make([], XNames(n), -2.0, 2.0)
    ensures r.Ok? ==> forall a :: Holds(r.value.support, a) <==> forall i | 0 <= i < n :: a.value(XName(i)) > 0.5
    ensures r.Ok? ==> forall a :: Value(r.value.weight, a) == TriangleProduct(a, n) && Value(r.value.weight, a) >= 0.0
    ensures r.Ok? ==> Declared(r.value)
  {
    if n == 0 then Err(NoTimesArguments) else
    UnivariateDeclared(n);
    assert forall a :: Value(Times(TriangleTerms(n)), a) == TriangleProduct(a, n) && TriangleProduct(a, n) >= 0.0 by {
      forall a ensures Value(Times(TriangleTerms(n)), a) == TriangleProduct(a, n) && TriangleProduct(a, n) >= 0.0 {
        TriangleTermsValue(a, n);
      }
    }
    Ok(Density(Make([], XNames(n), -2.0, 2.0), And(AboveHalf(n)), Times(TriangleTerms(n))))
  }

  // ---------------------------------------------------------------------
  // click_graph

  /** "sim_{i}" */
  function SimName(i: nat): string
  {
    "sim_" + Show(i)
  }

  /** ["sim_0", ..., "sim_{n-1}"] */
  function SimNames(n: nat): (names: seq<string>)
    ensures |names| == n && forall i | 0 <= i < n :: names[i] == SimName(i)
  {
    seq(n, i requires 0 <= i < n => SimName(i))
  }

  lemma SimNameInjective(i: nat, j: nat)
    requires SimName(i) == SimName(j)
    ensures i == j
  {
    assert Show(i) == SimName(i)[4..] && Show(j) == SimName(j)[4..];
    ShowInjective(i, j);
  }

  /** "{prefix}_{i}_{j}" for the k-th pair (i, j) = (k / 2, k % 2) of range(n) x (0, 1). */
  function PairName(prefix: string, k: nat): string
  {
    prefix + "_" + Show(k / 2) + "_" + Show(k % 2)
  }

  /** The names of the 2n pairs, in the order the comprehensions list them. */
  function PairNames(prefix: string, n: nat): (names: seq<string>)
    ensures |names| == 2 * n && forall k | 0 <= k < 2 * n :: names[k] == PairName(prefix, k)
  {
    seq(2 * n, k requires 0 <= k < 2 * n => PairName(prefix, k))
  }

  /** Different pairs get different names under the same prefix. */
  lemma PairNameInjective(prefix: string, k: nat, l: nat)
    requires PairName(prefix, k) == PairName(prefix, l)
    ensures k == l
  {
    var t, sk, sl := prefix + "_", Show(k / 2), Show(l / 2);
    var s := PairName(prefix, k);
    assert Show(k % 2) == [Digit(k % 2)] && Show(l % 2) == [Digit(l % 2)];
    assert s == t + sk + ("_" + [Digit(k % 2)]);
    assert s == t + sl + ("_" + [Digit(l % 2)]);
    assert |sk| == |sl|;
    assert sk == s[|t|..|t| + |sk|] == sl;
    assert Digit(k % 2) == s[|s| - 1] == Digit(l % 2);
    ShowInjective(k / 2, l / 2);
    DigitInjective(k % 2, l % 2);
  }

  lemma PairNamesDistinct(prefix: string, n: nat)
    ensures Distinct(PairNames(prefix, n))
  {
    var names := PairNames(prefix, n);
    forall k, l | 0 <= k < l < 2 * n ensures names[k] != names[l] {
      if PairName(prefix, k) == PairName(prefix, l) {
        PairNameInjective(prefix, k, l);
      }
    }
  }

  /**
   * The first character tells sim, cl and b names apart; the fifth tells
   * sim_i from sim_x and the third b_i_j from b_x_i_j.
   */
  lemma ClickNameHeads(i: nat, k: nat)
    ensures SimName(i)[0] == 's' && IsDigit(SimName(i)[4])
    ensures PairName("cl", k)[0] == 'c'
    ensures PairName("b", k)[0] == 'b' && IsDigit(PairName("b", k)[2])
    ensures PairName("b_x", k)[0] == 'b' && PairName("b_x", k)[2] == 'x'
  {
  }

  /** t(v >= 0) * t(v <= 1): 1 inside [0, 1] and 0 outside. */
  function UnitIndicator(v: string): (w: Expr)
    ensures forall a :: Value(w, a) == if 0.0 <= a.value(v) <= 1.0 then 1.0 else 0.0
    ensures Symbols(w) == {v}
  {
    var low, high := Indicator(LE(RealLit(0.0), Sym(v))), Indicator(LE(Sym(v), RealLit(1.0)));
    TimesPair(low, high);
    SymbolsOfPair(low, high);
    assert Symbols(LE(RealLit(0.0), Sym(v))) == {v} && Symbols(LE(Sym(v), RealLit(1.0))) == {v};
    assert forall a :: Value(Times([low, high]), a) == if 0.0 <= a.value(v) <= 1.0 then 1.0 else 0.0 by {
      forall a ensures Value(Times([low, high]), a) == if 0.0 <= a.value(v) <= 1.0 then 1.0 else 0.0 {
        assert Holds(LE(RealLit(0.0), Sym(v)), a) <==> 0.0 <= a.value(v);
        assert Holds(LE(Sym(v), RealLit(1.0)), a) <==> a.value(v) <= 1.0;
      }
    }
    Times([low, high])
  }

  /** Ite(c, p, 1 - p): the probability of c's value under a coin of bias p. */
  function Bernoulli(c: string, p: string): (w: Expr)
    ensures forall a :: Value(w, a) == if a.truth(c) then a.value(p) else 1.0 - a.value(p)
    ensures Symbols(w) == {c, p}
  {
    var w := Ite(Sym(c), Sym(p), Minus(RealLit(1.0), Sym(p)));
    assert forall a :: Value(w, a) == if a.truth(c) then a.value(p) else 1.0 - a.value(p) by {
      forall a ensures Value(w, a) == if a.truth(c) then a.value(p) else 1.0 - a.value(p) {
        assert Holds(Sym(c), a) == a.truth(c);
        assert Value(Minus(RealLit(1.0), Sym(p)), a) == 1.0 - a.value(p);
      }
    }
    assert Symbols(Minus(RealLit(1.0), Sym(p))) == {p};
    w
  }

  /** The consistency constraints of node i: cl_i_0 <-> b_i_0, cl_i_1 <-> (sim_i ? b_i_0 : b_i_1). */
  function ClickNode(i: nat): (c: Expr)
    ensures forall a :: Holds(c, a) <==> ClickConsistent(a, i)
  {
    var sim, b0, b1 := SimName(i), PairName("b", 2 * i), PairName("b", 2 * i + 1);
    CopyOrChoose(sim, b0, b1, PairName("cl", 2 * i), PairName("cl", 2 * i + 1));
    And([Iff(Sym(PairName("cl", 2 * i)), Sym(b0)),
         Iff(Sym(PairName("cl", 2 * i + 1)), Or([And([Sym(sim), Sym(b0)]), And([Not(Sym(sim)), Sym(b1)])]))])
  }

  /**
   * Every name the click domain declares is in `names`: the similarity and
   * pair Booleans and every real.
   */
  predicate HasClickNames(names: set<string>, n: nat)
  {
    && (forall i | 0 <= i < n :: SimName(i) in names)
    && (forall k | 0 <= k < 2 * n :: PairName("cl", k) in names && PairName("b", k) in names)
    && (forall r | 0 <= r < 1 + 2 * n :: ClickReal(r) in names)
  }

  /** The consistency constraints of node i mention only names of the click domain. */
  lemma ClickNodeWithin(n: nat, i: nat, names: set<string>)
    requires i < n && HasClickNames(names, n)
    ensures Symbols(ClickNode(i)) <= names
  {
    ChoiceSymbols(SimName(i), PairName("b", 2 * i), PairName("b", 2 * i + 1), PairName("cl", 2 * i), PairName("cl", 2 * i + 1));
  }

  /** cl0 <-> b0 and cl1 <-> (sim & b0 | ~sim & b1) mentions exactly its five names. */
  lemma ChoiceSymbols(sim: string, b0: string, b1: string, cl0: string, cl1: string)
    ensures Symbols(And([Iff(Sym(cl0), Sym(b0)), Iff(Sym(cl1), Or([And([Sym(sim), Sym(b0)]), And([Not(Sym(sim)), Sym(b1)])]))]))
      == {sim, b0, b1, cl0, cl1}
  {
    SymbolsOfPair(Sym(sim), Sym(b0));
    SymbolsOfPair(Not(Sym(sim)), Sym(b1));
    SymbolsOfPair(And([Sym(sim), Sym(b0)]), And([Not(Sym(sim)), Sym(b1)]));
    SymbolsOfPair(Iff(Sym(cl0), Sym(b0)), Iff(Sym(cl1), Or([And([Sym(sim), Sym(b0)]), And([Not(Sym(sim)), Sym(b1)])])));
  }

  /** cl0 <-> b0 and cl1 <-> (sim & b0 | ~sim & b1): cl0 copies b0 and cl1 copies b0 or b1 as sim says. */
  lemma CopyOrChoose(sim: string, b0: string, b1: string, cl0: string, cl1: string)
    ensures forall a ::
      Holds(And([Iff(Sym(cl0), Sym(b0)), Iff(Sym(cl1), Or([And([Sym(sim), Sym(b0)]), And([Not(Sym(sim)), Sym(b1)])]))]), a)
      <==> a.truth(cl0) == a.truth(b0) && a.truth(cl1) == if a.truth(sim) then a.truth(b0) else a.truth(b1)
  {
    var chosen := Or([And([Sym(sim), Sym(b0)]), And([Not(Sym(sim)), Sym(b1)])]);
    AndPair(Iff(Sym(cl0), Sym(b0)), Iff(Sym(cl1), chosen));
    OrPair(And([Sym(sim), Sym(b0)]), And([Not(Sym(sim)), Sym(b1)]));
    AndPair(Sym(sim), Sym(b0));
    AndPair(Not(Sym(sim)), Sym(b1));
    forall a ensures Holds(chosen, a) == if a.truth(sim) then a.truth(b0) else a.truth(b1) {
      assert Holds(Sym(sim), a) == a.truth(sim) && Holds(Not(Sym(sim)), a) == !a.truth(sim);
      assert Holds(Sym(b0), a) == a.truth(b0) && Holds(Sym(b1), a) == a.truth(b1);
    }
    forall a ensures Holds(Iff(Sym(cl0), Sym(b0)), a) == (a.truth(cl0) == a.truth(b0)) {
      assert Holds(Sym(cl0), a) == a.truth(cl0) && Holds(Sym(b0), a) == a.truth(b0);
    }
    forall a ensures Holds(Iff(Sym(cl1), chosen), a) == (a.truth(cl1) == Holds(chosen, a)) {
      assert Holds(Sym(cl1), a) == a.truth(cl1);
    }
  }

  /** Node i copies b_i_0 into cl_i_0 and, as sim_i says, b_i_0 or b_i_1 into cl_i_1. */
  predicate ClickConsistent(a: Assignment, i: nat)
  {
    && a.truth(PairName("cl", 2 * i)) == a.truth(PairName("b", 2 * i))
    && a.truth(PairName("cl", 2 * i + 1))
       == if a.truth(SimName(i)) then a.truth(PairName("b", 2 * i)) else a.truth(PairName("b", 2 * i + 1))
  }

  /** The shared similarity real of click_graph. */
  const SimX: string := "sim_x"

  /** The real variable at position r of the click domain: sim_x, then b_x_i_j. */
  function ClickReal(r: nat): string
  {
    if r == 0 then SimX else PairName("b_x", r - 1)
  }

  /** The weight factor at position idx: w_sim_x, then w_sim, w_b_x and w_b. */
  function ClickFactor(n: nat, idx: nat): Expr
  {
    if idx == 0 then UnitIndicator(SimX)
    else if idx < 1 + n then Bernoulli(SimName(idx - 1), SimX)
    else if idx < 1 + 3 * n then UnitIndicator(ClickReal(idx - n))
    else Bernoulli(PairName("b", idx - 1 - 3 * n), ClickReal(idx - 3 * n))
  }

  /** Each weight factor mentions only names of the click domain. */
  lemma ClickFactorWithin(n: nat, idx: nat, names: set<string>)
    requires idx < 1 + 5 * n && HasClickNames(names, n)
    ensures Symbols(ClickFactor(n, idx)) <= names
  {
    if idx == 0 {
      assert ClickReal(0) == SimX;
    } else if idx < 1 + n {
      assert ClickReal(0) == SimX;
    } else if idx >= 1 + 3 * n {
      assert idx - 1 - 3 * n < 2 * n;
    }
  }

  /** [w_sim_x] + w_sim + w_b_x + w_b, position by position. */
  function ClickFactors(n: nat): (ws: seq<Expr>)
    ensures |ws| == 1 + 5 * n
    ensures forall idx | 0 <= idx < 1 + 5 * n :: ws[idx] == ClickFactor(n, idx)
  {
    seq(1 + 5 * n, idx requires 0 <= idx < 1 + 5 * n => ClickFactor(n, idx))
  }

  /**
   * The positional list is [w_sim_x] + w_sim + w_b_x + w_b: the range
   * indicator of sim_x, a Bernoulli factor on sim_x per similarity Boolean,
   * a range indicator per b_x real and a Bernoulli factor per b Boolean.
   */
  lemma ClickFactorsLayout(n: nat)
    ensures ClickFactors(n)[0] == UnitIndicator(SimX)
    ensures forall i | 0 <= i < n :: ClickFactors(n)[1 + i] == Bernoulli(SimName(i), SimX)
    ensures forall k | 0 <= k < 2 * n :: ClickFactors(n)[1 + n + k] == UnitIndicator(PairName("b_x", k))
    ensures forall k | 0 <= k < 2 * n :: ClickFactors(n)[1 + 3 * n + k] == Bernoulli(PairName("b", k), PairName("b_x", k))
  {
    ClickSimFactors(n);
    ClickPairFactors(n);
  }

  lemma ClickSimFactors(n: nat)
    ensures forall i | 0 <= i < n :: ClickFactors(n)[1 + i] == Bernoulli(SimName(i), SimX)
  {
    forall i | 0 <= i < n ensures ClickFactors(n)[1 + i] == Bernoulli(SimName(i), SimX) {
      assert ClickFactor(n, 1 + i) == Bernoulli(SimName(i), SimX);
    }
  }

  lemma ClickPairFactors(n: nat)
    ensures forall k | 0 <= k < 2 * n :: ClickFactors(n)[1 + n + k] == UnitIndicator(PairName("b_x", k))
    ensures forall k | 0 <= k < 2 * n :: ClickFactors(n)[1 + 3 * n + k] == Bernoulli(PairName("b", k), PairName("b_x", k))
  {
    forall k | 0 <= k < 2 * n
      ensures ClickFactors(n)[1 + n + k] == UnitIndicator(PairName("b_x", k))
      ensures ClickFactors(n)[1 + 3 * n + k] == Bernoulli(PairName("b", k), PairName("b_x", k))
    {
      assert ClickReal(1 + k) == PairName("b_x", k);
    }
  }

  /**
   * The click domain: the Booleans sim_i, then cl_i_j, then b_i_j, and the
   * reals sim_x, then b_x_i_j, all in [0, 1].
   */
  function ClickDomain(n: nat): (d: Domain)
    ensures |d.bools| == 5 * n && |d.reals| == 1 + 2 * n
    ensures forall i | 0 <= i < n :: d.bools[i] == SimName(i)
    ensures forall k | 0 <= k < 2 * n :: d.bools[n + k] == PairName("cl", k) && d.bools[3 * n + k] == PairName("b", k)
    ensures forall r | 0 <= r < 1 + 2 * n :: d.reals[r] == RealVar(ClickReal(r), 0.0, 1.0)
  {
    var reals := [SimX] + PairNames("b_x", n);
    assert forall r | 0 <= r < 1 + 2 * n :: reals[r] == ClickReal(r);
    Make(SimNames(n) + PairNames("cl", n) + PairNames("b", n), reals, 0.0, 1.0)
  }

  /** Every name the consistency constraints and the weight factors read is declared by the click domain. */
  lemma ClickDomainDeclares(n: nat)
    ensures HasClickNames(Names(ClickDomain(n)), n)
  {
    ClickLayoutDeclares(n, ClickDomain(n));
  }

  /** Any domain laid out as the click domain declares the names HasClickNames asks for. */
  lemma ClickLayoutDeclares(n: nat, d: Domain)
    requires |d.bools| == 5 * n && |d.reals| == 1 + 2 * n
    requires forall i | 0 <= i < n :: d.bools[i] == SimName(i)
    requires forall k | 0 <= k < 2 * n :: d.bools[n + k] == PairName("cl", k) && d.bools[3 * n + k] == PairName("b", k)
    requires forall r | 0 <= r < 1 + 2 * n :: d.reals[r] == RealVar(ClickReal(r), 0.0, 1.0)
    ensures HasClickNames(Names(d), n)
  {
    forall i | 0 <= i < n ensures SimName(i) in Names(d) {
      BoolDeclared(d, i);
    }
    forall k | 0 <= k < 2 * n ensures PairName("cl", k) in Names(d) && PairName("b", k) in Names(d) {
      BoolDeclared(d, n + k);
      BoolDeclared(d, 3 * n + k);
    }
    forall r | 0 <= r < 1 + 2 * n ensures ClickReal(r) in Names(d) {
      RealDeclared(d, r);
    }
  }

  /**
   * The 5n Boolean names of the click domain are distinct, so are its
   * 1 + 2n real names, and no name is both Boolean and real.
   */
  lemma ClickNamesDistinct(n: nat)
    ensures Distinct(ClickDomain(n).bools) && Distinct(RealNames(ClickDomain(n)))
    ensures forall i, r | 0 <= i < 5 * n && 0 <= r < 1 + 2 * n :: ClickDomain(n).bools[i] != ClickDomain(n).reals[r].name
  {
    ClickBoolsDistinct(n);
    assert SimNames(n) + PairNames("cl", n) + PairNames("b", n) == ClickDomain(n).bools;
    var bxs := PairNames("b_x", n);
    PairNamesDistinct("b_x", n);
    forall k | 0 <= k < 2 * n ensures bxs[k] != SimX {
      ClickNameHeads(0, k);
    }
    DistinctCons(SimX, bxs);
    assert RealNames(ClickDomain(n)) == [SimX] + bxs;
    ClickBoolsNotReal(n);
  }

  /** sim_i, cl_i_j and b_i_j never repeat. */
  lemma ClickBoolsDistinct(n: nat)
    ensures Distinct(SimNames(n) + PairNames("cl", n) + PairNames("b", n))
  {
    var sims, cls, bs := SimNames(n), PairNames("cl", n), PairNames("b", n);
    forall i, j | 0 <= i < j < n ensures sims[i] != sims[j] {
      if SimName(i) == SimName(j) {
        SimNameInjective(i, j);
      }
    }
    PairNamesDistinct("cl", n);
    PairNamesDistinct("b", n);
    forall i, k | 0 <= i < n && 0 <= k < 2 * n ensures sims[i] != cls[k] && sims[i] != bs[k] {
      ClickNameHeads(i, k);
    }
    DistinctAppend(sims, cls);
    forall i, k | 0 <= i < 3 * n && 0 <= k < 2 * n ensures (sims + cls)[i] != bs[k] {
      if i < n {
        ClickNameHeads(i, k);
      } else {
        ClickNameHeads(0, i - n);
        ClickNameHeads(0, k);
        assert (sims + cls)[i] == cls[i - n];
      }
    }
    DistinctAppend(sims + cls, bs);
  }

  /** No Boolean name of the click domain is also one of its real names. */
  lemma ClickBoolsNotReal(n: nat)
    ensures forall i, r | 0 <= i < 5 * n && 0 <= r < 1 + 2 * n :: ClickDomain(n).bools[i] != ClickDomain(n).reals[r].name
  {
    var d := ClickDomain(n);
    forall i, r | 0 <= i < 5 * n && 0 <= r < 1 + 2 * n ensures d.bools[i] != d.reals[r].name {
      assert d.reals[r].name == ClickReal(r);
      if i < n {
        assert d.bools[i] == SimName(i);
        BoolNotClickReal(SimName(i), r);
      } else if i < 3 * n {
        assert d.bools[n + (i - n)] == PairName("cl", i - n);
        BoolNotClickReal(PairName("cl", i - n), r);
      } else {
        assert d.bools[3 * n + (i - 3 * n)] == PairName("b", i - 3 * n);
        BoolNotClickReal(PairName("b", i - 3 * n), r);
      }
    }
  }

  /** A sim_i, cl_i_j or b_i_j name is neither sim_x nor a b_x_i_j name. */
  lemma BoolNotClickReal(b: string, r: nat)
    requires (exists i: nat :: b == SimName(i)) || (exists k: nat :: b == PairName("cl", k) || b == PairName("b", k))
    ensures b != ClickReal(r)
  {
    if r == 0 {
      assert SimX[0] == 's' && SimX[4] == 'x';
    } else {
      ClickNameHeads(0, r - 1);
    }
    if exists i: nat :: b == SimName(i) {
      var i: nat :| b == SimName(i);
      ClickNameHeads(i, 0);
    } else {
      var k: nat :| b == PairName("cl", k) || b == PairName("b", k);
      ClickNameHeads(0, k);
    }
  }

  /**
   * click_graph(n): n similarity Booleans with 2n "clicked" and 2n
   * "relevant" Booleans tied by one consistency conjunct per node; the
   * weight multiplies 1 + 5n factors: range indicators of the reals and a
   * Bernoulli factor per Boolean.
   */
  function ClickGraph(n: nat): (d: Density)
    ensures d.domain == ClickDomain(n)
    ensures d.support.And? && |d.support.args| == n
    ensures forall a :: Holds(d.support, a) <==> forall i | 0 <= i < n :: ClickConsistent(a, i)
    ensures d.weight == Times(ClickFactors(n))
    ensures forall a :: Value(d.weight, a) >= 0.0
    ensures Declared(d)
  {
    var nodes := ClickNodes(n);
    ClickWeightNonNegative(n);
    ClickDeclared(n);
    assert forall a :: Holds(And(nodes), a) <==> forall i | 0 <= i < n :: ClickConsistent(a, i) by {
      forall a ensures Holds(And(nodes), a) <==> forall i | 0 <= i < n :: ClickConsistent(a, i) {
        assert forall i | 0 <= i < n :: Holds(nodes[i], a) <==> ClickConsistent(a, i);
      }
    }
    Density(ClickDomain(n), And(nodes), Times(ClickFactors(n)))
  }

  /** The consistency constraints of nodes 0 .. n-1, in order. */
  function ClickNodes(n: nat): (cs: seq<Expr>)
    ensures |cs| == n && forall i | 0 <= i < n :: cs[i] == ClickNode(i)
  {
    seq(n, i requires 0 <= i < n => ClickNode(i))
  }

  /** The support and the weight of click_graph(n) mention only names its domain declares. */
  lemma ClickDeclared(n: nat)
    ensures Declared(Density(ClickDomain(n), And(ClickNodes(n)), Times(ClickFactors(n))))
  {
    var names := Names(ClickDomain(n));
    ClickDomainDeclares(n);
    ClickWithin(n, names);
    DeclaredWithin(ClickDomain(n), And(ClickNodes(n)), Times(ClickFactors(n)), names);
  }

  lemma ClickWithin(n: nat, names: set<string>)
    requires HasClickNames(names, n)
    ensures Symbols(And(ClickNodes(n))) <= names && Symbols(Times(ClickFactors(n))) <= names
  {
    forall i | 0 <= i < n ensures Symbols(ClickNodes(n)[i]) <= names {
      ClickNodeWithin(n, i, names);
    }
    forall idx | 0 <= idx < 1 + 5 * n ensures Symbols(ClickFactors(n)[idx]) <= names {
      ClickFactorWithin(n, idx, names);
    }
    NaryWithin(ClickNodes(n), names);
    NaryWithin(ClickFactors(n), names);
  }

  lemma ClickWeightNonNegative(n: nat)
    ensures forall a :: Value(Times(ClickFactors(n)), a) >= 0.0
  {
    forall a ensures Value(Times(ClickFactors(n)), a) >= 0.0 {
      ClickWeightSupport(n, a);
      ValueOfTimes(ClickFactors(n), a);
    }
  }

  /** Every real of the click domain lies in [0, 1]. */
  predicate ClickInBounds(n: nat, a: Assignment)
  {
    forall r | 0 <= r < 1 + 2 * n :: 0.0 <= a.value(ClickReal(r)) <= 1.0
  }

  lemma ClickBounds(n: nat, a: Assignment)
    ensures InBounds(ClickDomain(n), a) <==> ClickInBounds(n, a)
  {
    var d := ClickDomain(n);
    assert forall r | 0 <= r < |d.reals| :: d.reals[r] == RealVar(ClickReal(r), 0.0, 1.0);
  }

  /** Inside the domain bounds every factor of the click weight is non-negative. */
  lemma ClickFactorsNonNegative(n: nat, a: Assignment, idx: nat)
    requires ClickInBounds(n, a) && idx < 1 + 5 * n
    ensures Value(ClickFactor(n, idx), a) >= 0.0
  {
    if idx == 0 || 1 + n <= idx < 1 + 3 * n {
    } else if idx < 1 + n {
      assert 0.0 <= a.value(ClickReal(0)) <= 1.0;
    } else {
      assert 0.0 <= a.value(ClickReal(idx - 3 * n)) <= 1.0;
    }
  }

  /** Inside the domain bounds the click weight is non-negative. */
  lemma ClickWeightInBounds(n: nat, a: Assignment)
    requires ClickInBounds(n, a)
    ensures ProductOf(ClickFactors(n), a) >= 0.0
  {
    var ws := ClickFactors(n);
    forall idx | 0 <= idx < |ws| ensures Value(ws[idx], a) >= 0.0 {
      ClickFactorsNonNegative(n, a, idx);
    }
    ProductNonNegative(ws, a);
  }

  /** Outside [0, 1] for some real, the click weight is zero. */
  lemma ClickWeightOutside(n: nat, a: Assignment)
    requires !ClickInBounds(n, a)
    ensures ProductOf(ClickFactors(n), a) == 0.0
  {
    var r :| 0 <= r < 1 + 2 * n && !(0.0 <= a.value(ClickReal(r)) <= 1.0);
    var k := ClickZeroFactor(n, a, r);
    assert ClickFactors(n)[k] == ClickFactor(n, k);
    ProductZero(ClickFactors(n), a, k);
  }

  /** A real outside [0, 1] zeroes its own range indicator among the factors. */
  lemma ClickZeroFactor(n: nat, a: Assignment, r: nat) returns (k: nat)
    requires r < 1 + 2 * n && !(0.0 <= a.value(ClickReal(r)) <= 1.0)
    ensures k < 1 + 5 * n && Value(ClickFactor(n, k), a) == 0.0
  {
    if r == 0 {
      k := 0;
      assert ClickFactor(n, k) == UnitIndicator(ClickReal(r));
    } else {
      k := n + r;
      assert ClickFactor(n, k) == UnitIndicator(ClickReal(r));
    }
  }

  /**
   * The click weight is never negative, and it is zero wherever a real
   * variable leaves the domain bounds.
   */
  lemma ClickWeightSupport(n: nat, a: Assignment)
    ensures ProductOf(ClickFactors(n), a) >= 0.0
    ensures !InBounds(ClickDomain(n), a) ==> ProductOf(ClickFactors(n), a) == 0.0
  {
    ClickBounds(n, a);
    if ClickInBounds(n, a) {
      ClickWeightInBounds(n, a);
    } else {
      ClickWeightOutside(n, a);
    }
  }

  // ---------------------------------------------------------------------
  // dual_paths and dual_paths_distinct

  /** The message random.sample gives when asked for more items than there are. */
  const SampleTooLarge := "Sample larger than population or is negative"

  /**
   * One round of the term loop: random.sample(real_vars, 2) picks the
   * variables `first` and `second`, and two calls of random.random() give
   * their coefficients.
   */
  datatype TermDraw = TermDraw(first: nat, second: nat, c1: real, c2: real)

  /** The random draws a dual_paths run consumes, supplied explicitly. */
  datatype Draws = Draws(terms: seq<TermDraw>, orders: seq<seq<nat>>)

  /** A draw random.sample and random.random can produce over n variables. */
  predicate ValidTermDraw(n: nat, t: TermDraw)
  {
    t.first < n && t.second < n && t.first != t.second && 0.0 <= t.c1 < 1.0 && 0.0 <= t.c2 < 1.0
  }

  /** random.sample(items, m) over m items: an ordering of all of 0 .. m-1. */
  predicate IsOrdering(order: seq<nat>, m: nat)
  {
    && |order| == m
    && (forall k | 0 <= k < m :: order[k] < m)
    && (forall i | 0 <= i < m :: i in order)
  }

  /** n term draws and n orderings, as the two loops of dual_paths consume them. */
  predicate ValidDraws(n: nat, draws: Draws)
  {
    && |draws.terms| == n && (forall i | 0 <= i < n :: ValidTermDraw(n, draws.terms[i]))
    && |draws.orders| == n && (forall i | 0 <= i < n :: IsOrdering(draws.orders[i], n))
  }

  /** v1 * c1 <= v2 * c2 */
  function DrawnTerm(t: TermDraw): (e: Expr)
    ensures forall a :: Holds(e, a) <==> a.value(XName(t.first)) * t.c1 <= a.value(XName(t.second)) * t.c2
    ensures Symbols(e) == {XName(t.first), XName(t.second)}
  {
    TimesPair(Sym(XName(t.first)), RealLit(t.c1));
    TimesPair(Sym(XName(t.second)), RealLit(t.c2));
    SymbolsOfPair(Sym(XName(t.first)), RealLit(t.c1));
    SymbolsOfPair(Sym(XName(t.second)), RealLit(t.c2));
    LE(Times([Sym(XName(t.first)), RealLit(t.c1)]), Times([Sym(XName(t.second)), RealLit(t.c2)]))
  }

  /** The terms the loop builds from the draws, in order. */
  function DrawnTerms(ts: seq<TermDraw>): (terms: seq<Expr>)
    ensures |terms| == |ts| && forall i | 0 <= i < |ts| :: terms[i] == DrawnTerm(ts[i])
  {
    seq(|ts|, i requires 0 <= i < |ts| => DrawnTerm(ts[i]))
  }

  /** Terms drawn over n variables mention only x0 .. x{n-1}. */
  lemma DrawnTermsWithin(n: nat, ts: seq<TermDraw>, names: set<string>)
    requires forall i | 0 <= i < |ts| :: ValidTermDraw(n, ts[i])
    requires HasXNames(names, n)
    ensures SymbolsOf(DrawnTerms(ts)) <= names
  {
    SymbolsOfWithin(DrawnTerms(ts), names);
  }

  /** All the terms hold at `a`. */
  predicate AllHold(terms: seq<Expr>, a: Assignment)
  {
    forall i | 0 <= i < |terms| :: Holds(terms[i], a)
  }

  /** And(*random.sample(terms, n)): the terms conjoined in the drawn order. */
  function Path(terms: seq<Expr>, order: seq<nat>): (p: Expr)
    requires IsOrdering(order, |terms|)
    ensures forall a :: Holds(p, a) <==> AllHold(terms, a)
    ensures Symbols(p) <= SymbolsOf(terms)
  {
    var p := And(seq(|order|, k requires 0 <= k < |order| => terms[order[k]]));
    assert Symbols(p) <= SymbolsOf(terms) by {
      forall k | 0 <= k < |order| ensures Symbols(p.args[k]) <= SymbolsOf(terms) {
        SymbolsOfContains(terms, order[k]);
      }
      SymbolsOfWithin(p.args, SymbolsOf(terms));
    }
    assert forall a :: Holds(p, a) <==> AllHold(terms, a) by {
      forall a ensures Holds(p, a) <==> AllHold(terms, a) {
        if Holds(p, a) {
          forall i | 0 <= i < |terms| ensures Holds(terms[i], a) {
            assert i in order;
            var k :| 0 <= k < |order| && order[k] == i;
            assert p.args[k] == terms[i];
          }
        }
      }
    }
    p
  }

  /** The terms loop shared by both variants. */
  method DrawTerms(n: nat, draws: Draws) returns (terms: seq<Expr>)
    requires ValidDraws(n, draws)
    ensures terms == DrawnTerms(draws.terms)
  {
    terms := [];
    for i := 0 to n
      invariant terms == DrawnTerms(draws.terms[..i])
    {
      assert draws.terms[..i + 1] == draws.terms[..i] + [draws.terms[i]];
      terms := terms + [DrawnTerm(draws.terms[i])];
    }
    assert draws.terms[..n] == draws.terms;
  }

  /** The paths loop of dual_paths: one conjunction per drawn ordering. */
  method DrawPaths(terms: seq<Expr>, orders: seq<seq<nat>>) returns (paths: seq<Expr>)
    requires forall k | 0 <= k < |orders| :: IsOrdering(orders[k], |terms|)
    ensures |paths| == |orders| && forall k | 0 <= k < |orders| :: paths[k] == Path(terms, orders[k])
  {
    paths := [];
    for i := 0 to |orders|
      invariant |paths| == i && forall k | 0 <= k < i :: paths[k] == Path(terms, orders[k])
    {
      paths := paths + [Path(terms, orders[i])];
    }
  }

  /** Every path is the conjunction of all the terms, so their disjunction is too, unless there is no path. */
  lemma PathsDisjunction(paths: seq<Expr>, terms: seq<Expr>, orders: seq<seq<nat>>)
    requires |paths| == |orders|
    requires forall k | 0 <= k < |orders| :: IsOrdering(orders[k], |terms|) && paths[k] == Path(terms, orders[k])
    ensures forall a :: Holds(Or(paths), a) <==> |paths| >= 1 && AllHold(terms, a)
  {
    forall a ensures Holds(Or(paths), a) <==> |paths| >= 1 && AllHold(terms, a) {
      if |paths| >= 1 {
        assert Holds(paths[0], a) <==> AllHold(terms, a);
      }
    }
  }

  /** Paths over the terms mention only names the terms keep to. */
  lemma PathsWithin(terms: seq<Expr>, orders: seq<seq<nat>>, paths: seq<Expr>, names: set<string>)
    requires |paths| == |orders|
    requires forall k | 0 <= k < |orders| :: IsOrdering(orders[k], |terms|) && paths[k] == Path(terms, orders[k])
    requires SymbolsOf(terms) <= names
    ensures SymbolsOf(paths) <= names
  {
    SymbolsOfWithin(paths, names);
  }

  /** The density dual_paths builds mentions only the variables it declares. */
  lemma PathsDeclared(n: nat, draws: Draws, terms: seq<Expr>, paths: seq<Expr>)
    requires ValidDraws(n, draws) && terms == DrawnTerms(draws.terms)
    requires |paths| == n && forall k | 0 <= k < n :: paths[k] == Path(terms, draws.orders[k])
    ensures var domain := Make([], XNames(n), 0.0, 1.0);
      Declared(Density(domain, And([Bounds(domain), Or(paths)]), RealLit(1.0)))
  {
    var domain := Make([], XNames(n), 0.0, 1.0);
    XNamesDeclared(n, 0.0, 1.0);
    DrawnPathsWithin(n, draws, terms, paths, Names(domain));
    AndWithin(Bounds(domain), Or(paths), Names(domain));
  }

  lemma DrawnPathsWithin(n: nat, draws: Draws, terms: seq<Expr>, paths: seq<Expr>, names: set<string>)
    requires ValidDraws(n, draws) && terms == DrawnTerms(draws.terms)
    requires |paths| == n && forall k | 0 <= k < n :: paths[k] == Path(terms, draws.orders[k])
    requires HasXNames(names, n)
    ensures SymbolsOf(paths) <= names
  {
    DrawnTermsWithin(n, draws.terms, names);
    PathsWithin(terms, draws.orders, paths, names);
  }

  /**
   * dual_paths(n): n random comparisons v1 * c1 <= v2 * c2 and n "paths",
   * each the conjunction of all n terms in a random order; the support is
   * the bounds and the disjunction of the paths. Every path is the same
   * conjunction, so the support holds exactly when the bounds hold, n is
   * positive and every term holds. With n = 1 random.sample cannot draw
   * two of the single variable and raises.
   */
  method DualPaths(n: nat, draws: Draws) returns (r: Result<Density, string>)
    requires n != 1 ==> ValidDraws(n, draws)
    ensures r.Err? <==> n == 1
    ensures r.Err? ==> r.error == SampleTooLarge
    ensures r.Ok? ==> r.value.domain == Make([], XNames(n), 0.0, 1.0) && r.value.weight == RealLit(1.0)
    ensures r.Ok? ==> forall a :: Holds(r.value.support, a) <==>
      InBounds(r.value.domain, a) && n >= 1 && AllHold(DrawnTerms(draws.terms), a)
    ensures r.Ok? ==> Declared(r.value)
  {
    if n == 1 {
      return Err(SampleTooLarge);
    }
    var domain := Make([], XNames(n), 0.0, 1.0);
    var terms := DrawTerms(n, draws);
    var paths := DrawPaths(terms, draws.orders);
    PathsDisjunction(paths, terms, draws.orders);
    AndPair(Bounds(domain), Or(paths));
    PathsDeclared(n, draws, terms, paths);
    return Ok(Density(domain, And([Bounds(domain), Or(paths)]), RealLit(1.0)));
  }

  /** Ite(path_i, i, 0) for each path, as dual_paths_distinct weighs them. */
  function PathWeight(path: Expr, i: nat): (w: Expr)
    ensures forall a :: Value(w, a) == if Holds(path, a) then i as real else 0.0
    ensures Symbols(w) == Symbols(path)
  {
    Ite(path, RealLit(i as real), RealLit(0.0))
  }

  /** 0 + 1 + ... + (m - 1) */
  function TriangularNumber(m: nat): real
  {
    if m == 0 then 0.0 else TriangularNumber(m - 1) + (m - 1) as real
  }

  /** The closed form m (m - 1) / 2. */
  lemma {:induction false} TriangularClosedForm(m: nat)
    ensures 2.0 * TriangularNumber(m) == (m * (m - 1)) as real
  {
    if m > 0 {
      TriangularClosedForm(m - 1);
      assert m * (m - 1) == (m - 1) * (m - 2) + 2 * (m - 1);
    }
  }

  /**
   * When every path holds, the weights 0, 1, ..., m - 1 add up to the
   * triangular number; when none holds, to 0.
   */
  lemma {:induction false} PathWeightsSum(weights: seq<Expr>, paths: seq<Expr>, allHold: bool, a: Assignment)
    requires |weights| == |paths|
    requires forall i | 0 <= i < |paths| :: weights[i] == PathWeight(paths[i], i)
    requires forall i | 0 <= i < |paths| :: Holds(paths[i], a) == allHold
    ensures SumOf(weights, a) == if allHold then TriangularNumber(|paths|) else 0.0
  {
    if weights != [] {
      var m := |weights| - 1;
      PathWeightsSum(weights[..m], paths[..m], allHold, a);
    }
  }

  /**
   * dual_paths_distinct(n): the same terms and paths, but the support is
   * only the bounds and path i contributes weight i when it holds. As every
   * path is the same conjunction, the weight is 0 + 1 + ... + (n - 1) where
   * every term holds and 0 elsewhere. With n = 1 random.sample raises, and
   * with n = 0 the sum has no term and pysmt raises.
   */
  method DualPathsDistinct(n: nat, draws: Draws) returns (r: Result<Density, string>)
    requires n != 1 ==> ValidDraws(n, draws)
    ensures r.Err? <==> n <= 1
    ensures r.Err? ==> r.error == if n == 1 then SampleTooLarge else NoPlusArguments
    ensures r.Ok? ==> r.value.domain == Make([], XNames(n), 0.0, 1.0)
    ensures r.Ok? ==> forall a :: Holds(r.value.support, a) <==> InBounds(r.value.domain, a)
    ensures r.Ok? ==> forall a ::
      Value(r.value.weight, a) == (if AllHold(DrawnTerms(draws.terms), a) then TriangularNumber(n) else 0.0)
    ensures r.Ok? ==> Declared(r.value)
  {
    if n == 1 {
      return Err(SampleTooLarge);
    }
    var domain := Make([], XNames(n), 0.0, 1.0);
    var terms := DrawTerms(n, draws);
    var weights := DrawWeightedPaths(terms, draws.orders);
    if weights == [] {
      return Err(NoPlusArguments);
    }
    DistinctWeights(terms, draws.orders, weights);
    WeightsDeclared(n, draws, terms, weights);
    return Ok(Density(domain, Bounds(domain), Plus(weights)));
  }

  /** The paths loop of dual_paths_distinct: path i becomes Ite(path, i, 0). */
  method DrawWeightedPaths(terms: seq<Expr>, orders: seq<seq<nat>>) returns (weights: seq<Expr>)
    requires forall k | 0 <= k < |orders| :: IsOrdering(orders[k], |terms|)
    ensures |weights| == |orders| && forall k | 0 <= k < |orders| :: weights[k] == PathWeight(Path(terms, orders[k]), k)
  {
    weights := [];
    for i := 0 to |orders|
      invariant |weights| == i && forall k | 0 <= k < i :: weights[k] == PathWeight(Path(terms, orders[k]), k)
    {
      weights := weights + [PathWeight(Path(terms, orders[i]), i)];
    }
  }

  /** The density dual_paths_distinct builds mentions only the variables it declares. */
  lemma WeightsDeclared(n: nat, draws: Draws, terms: seq<Expr>, weights: seq<Expr>)
    requires ValidDraws(n, draws) && terms == DrawnTerms(draws.terms)
    requires |weights| == n && forall k | 0 <= k < n :: weights[k] == PathWeight(Path(terms, draws.orders[k]), k)
    ensures var domain := Make([], XNames(n), 0.0, 1.0);
      Declared(Density(domain, Bounds(domain), Plus(weights)))
  {
    var domain := Make([], XNames(n), 0.0, 1.0);
    XNamesDeclared(n, 0.0, 1.0);
    WeightsWithin(n, draws, terms, weights, Names(domain));
    DeclaredWithin(domain, Bounds(domain), Plus(weights), Names(domain));
  }

  lemma WeightsWithin(n: nat, draws: Draws, terms: seq<Expr>, weights: seq<Expr>, names: set<string>)
    requires ValidDraws(n, draws) && terms == DrawnTerms(draws.terms)
    requires |weights| == n && forall k | 0 <= k < n :: weights[k] == PathWeight(Path(terms, draws.orders[k]), k)
    requires HasXNames(names, n)
    ensures Symbols(Plus(weights)) <= names
  {
    DrawnTermsWithin(n, draws.terms, names);
    forall k | 0 <= k < n ensures Symbols(weights[k]) <= names {
      WeightWithin(terms, draws.orders[k], k, weights[k], names);
    }
    NaryWithin(weights, names);
  }

  lemma WeightWithin(terms: seq<Expr>, order: seq<nat>, k: nat, w: Expr, names: set<string>)
    requires IsOrdering(order, |terms|) && w == PathWeight(Path(terms, order), k)
    requires SymbolsOf(terms) <= names
    ensures Symbols(w) <= names
  {
  }

  /** Path k weighs k where it holds, and every path holds exactly where all the terms hold. */
  lemma DistinctWeights(terms: seq<Expr>, orders: seq<seq<nat>>, weights: seq<Expr>)
    requires |weights| == |orders|
    requires forall k | 0 <= k < |orders| :: IsOrdering(orders[k], |terms|)
    requires forall k | 0 <= k < |orders| :: weights[k] == PathWeight(Path(terms, orders[k]), k)
    ensures forall a :: Value(Plus(weights), a) == if AllHold(terms, a) then TriangularNumber(|orders|) else 0.0
  {
    var paths := seq(|orders|, k requires 0 <= k < |orders| => Path(terms, orders[k]));
    forall a ensures Value(Plus(weights), a) == if AllHold(terms, a) then TriangularNumber(|orders|) else 0.0 {
      ValueOfPlus(weights, a);
      PathWeightsSum(weights, paths, AllHold(terms, a), a);
    }
  }

  // ---------------------------------------------------------------------
  // problem_generators and get_problem

  /** The entries of the problem_generators table. */
  datatype Problem =
    | XorProblem | MutexProblem | ClickProblem | UniProblem | DualProblem
    | DualPathsProblem | DualPathsDistinctProblem | AndOverlapProblem
    | TpgStarProblem | Tpg3aryTreeProblem | TpgPathProblem

  /** The name each problem is registered under. */
  function Key(p: Problem): string
  {
    match p
    case XorProblem => "xor"
    case MutexProblem => "mutex"
    case ClickProblem => "click"
    case UniProblem => "uni"
    case DualProblem => "dual"
    case DualPathsProblem => "dual_paths"
    case DualPathsDistinctProblem => "dual_paths_distinct"
    case AndOverlapProblem => "and_overlap"
    case TpgStarProblem => "tpg_star"
    case Tpg3aryTreeProblem => "tpg_3ary_tree"
    case TpgPathProblem => "tpg_path"
  }

  /** get_problem: the generator registered under the name, or the ValueError it raises. */
  function GetProblem(name: string): (r: Result<Problem, string>)
    ensures r.Ok? ==> Key(r.value) == name
    ensures r.Err? ==> r.error == "No problem with name " + name
  {
    if name == "xor" then Ok(XorProblem)
    else if name == "mutex" then Ok(MutexProblem)
    else if name == "click" then Ok(ClickProblem)
    else if name == "uni" then Ok(UniProblem)
    else if name == "dual" then Ok(DualProblem)
    else if name == "dual_paths" then Ok(DualPathsProblem)
    else if name == "dual_paths_distinct" then Ok(DualPathsDistinctProblem)
    else if name == "and_overlap" then Ok(AndOverlapProblem)
    else if name == "tpg_star" then Ok(TpgStarProblem)
    else if name == "tpg_3ary_tree" then Ok(Tpg3aryTreeProblem)
    else if name == "tpg_path" then Ok(TpgPathProblem)
    else Err("No problem with name " + name)
  }

  /** Every registered name finds its own generator, and only registered names are found. */
  lemma GetProblemKeys(name: string)
    ensures GetProblem(name).Ok? <==> exists p :: Key(p) == name
    ensures forall p :: GetProblem(Key(p)) == Ok(p)
  {
    if exists p :: Key(p) == name {
      var p :| Key(p) == name;
      match p
      case XorProblem =>
      case MutexProblem =>
      case ClickProblem =>
      case UniProblem =>
      case DualProblem =>
      case DualPathsProblem =>
      case DualPathsDistinctProblem =>
      case AndOverlapProblem =>
      case TpgStarProblem =>
      case TpgPathProblem =>
      case Tpg3aryTreeProblem =>
    }
    forall p ensures GetProblem(Key(p)) == Ok(p) {
      match p
      case XorProblem =>
      case MutexProblem =>
      case ClickProblem =>
      case UniProblem =>
      case DualProblem =>
      case DualPathsProblem =>
      case DualPathsDistinctProblem =>
      case AndOverlapProblem =>
      case TpgStarProblem =>
      case TpgPathProblem =>
      case Tpg3aryTreeProblem =>
    }
  }

  /** The problems whose generator draws random numbers. */
  predicate IsRandom(p: Problem)
  {
    p == DualPathsProblem || p == DualPathsDistinctProblem
  }

  /** The problems built by make_from_graph over one of the tpg graphs. */
  predicate IsGraphProblem(p: Problem)
  {
    p == TpgStarProblem || p == Tpg3aryTreeProblem || p == TpgPathProblem
  }

  /** A graph over n >= 2 nodes has n variables; tpg graphs over 0 or 1 node have no node at all. */
  lemma BuiltNodesCount(n: nat)
    ensures |BuiltNodes(n)| == if n <= 1 then 0 else n
  {
  }

  /**
   * The calls that raise: both dual_paths problems sample two of a single
   * variable when n = 1, and with n = 0 univariate builds a product and
   * dual_paths_distinct a sum of no argument.
   */
  predicate Raises(p: Problem, n: nat)
  {
    (IsRandom(p) && n == 1) || (n == 0 && (p == UniProblem || p == DualPathsDistinctProblem))
  }

  /** Edge k of the star over n nodes joins the centre to node k + 1. */
  function StarEdge(k: nat): Edge
  {
    (0, k + 1)
  }

  /** Edge k of the path joins node k to node k + 1. */
  function PathEdge(k: nat): Edge
  {
    (k, k + 1)
  }

  /** Edge k of the 3-ary tree joins node k + 1 to its parent k / 3. */
  function TernaryEdge(k: nat): Edge
  {
    (k / 3, k + 1)
  }

  /** Every variable is in [-1, 1] and the two ends of each of the m edges are at least 1 apart. */
  ghost predicate SeparatedGraph(d: Density, m: nat, edge: nat -> Edge)
  {
    && d.domain.bools == []
    && forall a :: Holds(d.support, a) <==> InBounds(d.domain, a) && forall k | 0 <= k < m :: Separated(a, edge(k))
  }

  /** xor(n): staggered bounds over make_domain's names and an odd number of pivot atoms, weight 1. */
  ghost predicate XorInstance(n: nat, d: Density)
  {
    && d.domain == PivotLast(n) && d.weight == RealLit(1.0)
    && forall a :: Holds(d.support, a) <==>
         WithinDistinctBounds(PivotFirstNames(n), a) && CountHolding(PivotAtoms(n), a) % 2 == 1
  }

  /** mutual_exclusive(n): staggered bounds and exactly one pivot atom, weight 1. */
  ghost predicate MutexInstance(n: nat, d: Density)
  {
    && d.domain == PivotLast(n) && d.weight == RealLit(1.0)
    && forall a :: Holds(d.support, a) <==>
         WithinDistinctBounds(PivotFirstNames(n), a) && CountHolding(PivotAtoms(n), a) == 1
  }

  /** click_graph(n): every node consistent, weight the product of the click factors. */
  ghost predicate ClickInstance(n: nat, d: Density)
  {
    && d.domain == ClickDomain(n) && d.weight == Times(ClickFactors(n))
    && forall a :: Holds(d.support, a) <==> forall i | 0 <= i < n :: ClickConsistent(a, i)
  }

  /** univariate(n): every variable above 0.5, weight the product of the triangular densities. */
  ghost predicate UniInstance(n: nat, d: Density)
  {
    && d.domain == Make([], XNames(n), -2.0, 2.0)
    && (forall a :: Holds(d.support, a) <==> forall i | 0 <= i < n :: a.value(XName(i)) > 0.5)
    && forall a :: Value(d.weight, a) == TriangleProduct(a, n)
  }

  /** dual(n): within bounds and exactly one pair comparison, weight 1. */
  ghost predicate DualInstance(n: nat, d: Density)
  {
    && d.domain == Make([], XNames(2 * n), 0.0, 1.0) && d.weight == RealLit(1.0)
    && forall a :: Holds(d.support, a) <==> InBounds(d.domain, a) && CountHolding(PairAtoms(n), a) == 1
  }

  /** dual_paths(n): within bounds and every drawn term holding, weight 1. */
  ghost predicate DualPathsInstance(n: nat, draws: Draws, d: Density)
  {
    && d.domain == Make([], XNames(n), 0.0, 1.0) && d.weight == RealLit(1.0)
    && forall a :: Holds(d.support, a) <==> InBounds(d.domain, a) && n >= 1 && AllHold(DrawnTerms(draws.terms), a)
  }

  /** dual_paths_distinct(n): within bounds, weight 0 + 1 + ... + (n - 1) where every drawn term holds and 0 elsewhere. */
  ghost predicate DualPathsDistinctInstance(n: nat, draws: Draws, d: Density)
  {
    && d.domain == Make([], XNames(n), 0.0, 1.0)
    && (forall a :: Holds(d.support, a) <==> InBounds(d.domain, a))
    && forall a :: Value(d.weight, a) == if AllHold(DrawnTerms(draws.terms), a) then TriangularNumber(n) else 0.0
  }

  /** and_overlap(n): within bounds and non-decreasing, weight 1. */
  ghost predicate AndOverlapInstance(n: nat, d: Density)
  {
    && d.domain == Make([], XNames(n), 0.0, 1.0) && d.weight == RealLit(1.0)
    && forall a :: Holds(d.support, a) <==> InBounds(d.domain, a) && NonDecreasing(a, n)
  }

  /**
   * What the density of problem p at size n is: the variables it declares,
   * when its support holds and what its weight is, entry by entry of the
   * table of get_problem.
   */
  ghost predicate Instance(p: Problem, n: nat, draws: Draws, d: Density)
  {
    match p
    case XorProblem => XorInstance(n, d)
    case MutexProblem => MutexInstance(n, d)
    case ClickProblem => ClickInstance(n, d)
    case UniProblem => UniInstance(n, d)
    case DualProblem => DualInstance(n, d)
    case DualPathsProblem => DualPathsInstance(n, draws, d)
    case DualPathsDistinctProblem => DualPathsDistinctInstance(n, draws, d)
    case AndOverlapProblem => AndOverlapInstance(n, d)
    case TpgStarProblem => SeparatedGraph(d, TreeEdgeCount(n), StarEdge)
    case TpgPathProblem => SeparatedGraph(d, TreeEdgeCount(n), PathEdge)
    case Tpg3aryTreeProblem => SeparatedGraph(d, TreeEdgeCount(n), TernaryEdge)
  }

  /**
   * Calls the generator of problem p with size n, as get_problem(name)(n)
   * does; the random draws are used only by the two dual_paths problems.
   * It fails exactly on the calls that raise, and every generated weight
   * is non-negative everywhere. A graph problem has one variable per node
   * of its graph and one separation clause per edge.
   */
  method Generate(p: Problem, n: nat, draws: Draws) returns (r: Result<Density, string>)
    requires IsRandom(p) && n != 1 ==> ValidDraws(n, draws)
    ensures r.Err? <==> Raises(p, n)
    ensures r.Ok? ==> NonNegativeWeight(r.value) && Declared(r.value)
    ensures r.Ok? && IsGraphProblem(p) ==> GraphShaped(r.value, n)
    ensures r.Ok? ==> Instance(p, n, draws, r.value)
  {
    if IsGraphProblem(p) {
      var d := GenerateGraph(p, n);
      r := Ok(d);
    } else {
      r := GenerateOther(p, n, draws);
    }
  }

  /** The weight is non-negative at every point. */
  ghost predicate NonNegativeWeight(d: Density)
  {
    forall a :: Value(d.weight, a) >= 0.0
  }

  /** One variable per node of the tpg graph over n nodes, and one separation clause per edge. */
  predicate GraphShaped(d: Density, n: nat)
  {
    && d.domain == Make([], XNames(|BuiltNodes(n)|), -1.0, 1.0)
    && d.support.And? && |d.support.args| == 2
    && d.support.args[0].And? && |d.support.args[0].args| == TreeEdgeCount(n)
  }

  /** The three tpg entries of the table: make_from_graph over the star, the 3-ary tree and the path. */
  method GenerateGraph(p: Problem, n: nat) returns (d: Density)
    requires IsGraphProblem(p)
    ensures NonNegativeWeight(d) && Declared(d) && GraphShaped(d, n)
    ensures forall draws :: Instance(p, n, draws, d)
  {
    var g: Graph;
    var edge: nat -> Edge;
    if p == TpgStarProblem {
      g := TpgStar(n);
      edge := StarEdge;
    } else if p == Tpg3aryTreeProblem {
      g := Tpg3aryTree(n, 3);
      edge := TernaryEdge;
    } else {
      g := TpgPath(n);
      edge := PathEdge;
    }
    d := MakeFromGraph(g);
    GraphInstance(g, TreeEdgeCount(n), edge);
  }

  /** make_from_graph over a graph whose m edges are edge(0), ..., edge(m - 1) separates exactly those ends. */
  lemma GraphInstance(g: Graph, m: nat, edge: nat -> Edge)
    requires forall k | 0 <= k < |g.edges| :: g.edges[k].0 < |g.nodes| && g.edges[k].1 < |g.nodes|
    requires |g.edges| == m && forall k | 0 <= k < m :: g.edges[k] == edge(k)
    ensures SeparatedGraph(MakeFromGraph(g), m, edge)
  {
  }

  /**
   * tpg_star at n = 4: four variables, three clauses, and the support holds
   * iff every variable is in [-1, 1] and the centre x0 is at least 1 away
   * from each of x1, x2 and x3.
   */
  lemma StarOfFour(d: Density, draws: Draws)
    requires GraphShaped(d, 4) && Instance(TpgStarProblem, 4, draws, d)
    ensures |d.domain.reals| == 4 && |d.support.args[0].args| == 3
    ensures forall a :: Holds(d.support, a) <==>
      InBounds(d.domain, a) && Separated(a, (0, 1)) && Separated(a, (0, 2)) && Separated(a, (0, 3))
  {
    forall a ensures (forall k | 0 <= k < 3 :: Separated(a, StarEdge(k))) <==>
      Separated(a, (0, 1)) && Separated(a, (0, 2)) && Separated(a, (0, 3))
    {
      assert StarEdge(0) == (0, 1) && StarEdge(1) == (0, 2) && StarEdge(2) == (0, 3);
    }
  }

  /** The eight entries of the table that are not graph problems. */
  method GenerateOther(p: Problem, n: nat, draws: Draws) returns (r: Result<Density, string>)
    requires !IsGraphProblem(p)
    requires IsRandom(p) && n != 1 ==> ValidDraws(n, draws)
    ensures r.Err? <==> Raises(p, n)
    ensures r.Ok? ==> NonNegativeWeight(r.value) && Declared(r.value)
    ensures r.Ok? ==> Instance(p, n, draws, r.value)
  {
    if p == UniProblem {
      r := Univariate(n);
    } else if p == DualPathsProblem {
      r := DualPaths(n, draws);
    } else if p == DualPathsDistinctProblem {
      r := DualPathsDistinct(n, draws);
      if r.Ok? {
        TriangularNonNegative(n);
      }
    } else {
      var d := GenerateTotal(p, n);
      r := Ok(d);
    }
  }

  /** The five entries of the table whose generator never raises. */
  method GenerateTotal(p: Problem, n: nat) returns (d: Density)
    requires p == XorProblem || p == MutexProblem || p == ClickProblem || p == DualProblem || p == AndOverlapProblem
    ensures NonNegativeWeight(d) && Declared(d)
    ensures forall draws :: Instance(p, n, draws, d)
  {
    match p
    case XorProblem =>
      d := Xor(n);
    case MutexProblem =>
      d := MutualExclusive(n);
    case ClickProblem =>
      d := ClickGraph(n);
    case DualProblem =>
      d := Dual(n);
    case AndOverlapProblem =>
      d := AndOverlap(n);
  }

  lemma {:induction false} TriangularNonNegative(m: nat)
    ensures TriangularNumber(m) >= 0.0
  {
    if m > 0 {
      TriangularNonNegative(m - 1);
    }
  }
}
