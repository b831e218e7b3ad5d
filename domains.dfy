/**
 * The pywmi side the structured generators build on: variable names, the
 * Domain (Boolean names, then real names each with its bound pair) and the
 * Density (domain, support, weight) a generator returns.
 */
module Domains {
  import opened Formulas

  /** A real variable and the bound pair the domain declares for it. */
  datatype RealVar = RealVar(name: string, lower: real, upper: real)

  /** Boolean variables first, then real variables, in declaration order. */
  datatype Domain = Domain(bools: seq<string>, reals: seq<RealVar>)

  datatype Density = Density(domain: Domain, support: Expr, weight: Expr)

  /** Domain.make(bools, reals, real_bounds=(lb, ub)): every real gets the same bound pair. */
  function Make(bools: seq<string>, reals: seq<string>, lb: real, ub: real): (d: Domain)
    ensures d.bools == bools && |d.reals| == |reals|
    ensures forall i | 0 <= i < |reals| :: d.reals[i] == RealVar(reals[i], lb, ub)
  {
    Domain(bools, seq(|reals|, i requires 0 <= i < |reals| => RealVar(reals[i], lb, ub)))
  }

  /** The names of the real variables, in order. */
  function RealNames(d: Domain): seq<string>
  {
    seq(|d.reals|, i requires 0 <= i < |d.reals| => d.reals[i].name)
  }

  /** Every name the domain declares, Boolean or real. */
  function Names(d: Domain): (names: set<string>)
    ensures forall x :: x in names <==> x in d.bools || x in RealNames(d)
  {
    (set x | x in d.bools) + (set x | x in RealNames(d))
  }

  /** No name occurs twice. */
  predicate Distinct(names: seq<string>)
  {
    forall i, j | 0 <= i < j < |names| :: names[i] != names[j]
  }

  /** A new name in front of distinct names keeps them distinct. */
  lemma DistinctCons(x: string, names: seq<string>)
    requires Distinct(names) && x !in names
    ensures Distinct([x] + names)
  {
    var all := [x] + names;
    forall i, j | 0 <= i < j < |all| ensures all[i] != all[j] {
      assert all[j] == names[j - 1];
      if i > 0 {
        assert all[i] == names[i - 1];
      }
    }
  }

  /** Two distinct sequences with no name in common stay distinct side by side. */
  lemma DistinctAppend(xs: seq<string>, ys: seq<string>)
    requires Distinct(xs) && Distinct(ys)
    requires forall i, j | 0 <= i < |xs| && 0 <= j < |ys| :: xs[i] != ys[j]
    ensures Distinct(xs + ys)
  {
    var all := xs + ys;
    forall i, j | 0 <= i < j < |all| ensures all[i] != all[j] {
      if j >= |xs| {
        assert all[j] == ys[j - |xs|];
      }
      if i >= |xs| {
        assert all[i] == ys[i - |xs|];
      }
    }
  }

  /** The support and the weight mention only names their domain declares. */
  predicate Declared(dens: Density)
  {
    Symbols(dens.support) <= Names(dens.domain) && Symbols(dens.weight) <= Names(dens.domain)
  }

  /** Each Boolean and each real of a domain is one of its names. */
  lemma BoolDeclared(d: Domain, i: nat)
    requires i < |d.bools|
    ensures d.bools[i] in Names(d)
  {
  }

  lemma RealDeclared(d: Domain, r: nat)
    requires r < |d.reals|
    ensures d.reals[r].name in Names(d)
  {
    assert RealNames(d)[r] == d.reals[r].name;
  }

  /** A density whose support and weight keep to the names its domain declares is declared. */
  lemma DeclaredWithin(domain: Domain, support: Expr, weight: Expr, names: set<string>)
    requires names == Names(domain) && Symbols(support) <= names && Symbols(weight) <= names
    ensures Declared(Density(domain, support, weight))
  {
  }

  /** Domain.make declares exactly the names it is given. */
  lemma MakeNames(bools: seq<string>, reals: seq<string>, lb: real, ub: real)
    ensures forall x :: x in Names(Make(bools, reals, lb, ub)) <==> x in bools || x in reals
  {
    assert RealNames(Make(bools, reals, lb, ub)) == reals;
  }

  /** Every real variable lies within its declared bounds at `a`. */
  predicate InBounds(d: Domain, a: Assignment)
  {
    forall i | 0 <= i < |d.reals| :: d.reals[i].lower <= a.value(d.reals[i].name) <= d.reals[i].upper
  }

  /** Domain.get_bounds(): one `lower <= v <= upper` conjunct per real variable. */
  function Bounds(d: Domain): (r: Expr)
    ensures forall a :: Holds(r, a) <==> InBounds(d, a)
    ensures Symbols(r) <= Names(d)
  {
    var cs := seq(|d.reals|, i requires 0 <= i < |d.reals| => Within(d.reals[i].name, d.reals[i].lower, d.reals[i].upper));
    assert SymbolsOf(cs) <= Names(d) by {
      SymbolsOfWithin(cs, Names(d));
      assert forall i | 0 <= i < |cs| :: Symbols(cs[i]) == {RealNames(d)[i]};
    }
    assert forall a :: Holds(And(cs), a) <==> InBounds(d, a) by {
      forall a ensures Holds(And(cs), a) <==> InBounds(d, a) {
        assert forall i | 0 <= i < |cs| :: cs[i] == Within(d.reals[i].name, d.reals[i].lower, d.reals[i].upper);
      }
    }
    And(cs)
  }

  /** Decimal digit. */
  function Digit(k: nat): char
    requires k < 10
  {
    "0123456789"[k]
  }

  predicate IsDigit(c: char)
  {
    '0' <= c <= '9'
  }

  /** Python's str(k) for a non-negative int: decimal digits, no leading zero. */
  function Show(k: nat): (s: string)
    ensures |s| >= 1 && forall i | 0 <= i < |s| :: IsDigit(s[i])
    ensures |s| == 1 <==> k < 10
  {
    if k < 10 then [Digit(k)] else Show(k / 10) + [Digit(k % 10)]
  }

  lemma DigitInjective(p: nat, q: nat)
    requires p < 10 && q < 10 && Digit(p) == Digit(q)
    ensures p == q
  {
  }

  /** Different numbers print differently. */
  lemma {:induction false} ShowInjective(p: nat, q: nat)
    requires Show(p) == Show(q)
    ensures p == q
  {
    if p >= 10 && q >= 10 {
      var sp, sq := Show(p), Show(q);
      assert sp[..|sp| - 1] == Show(p / 10) && sq[..|sq| - 1] == Show(q / 10);
      assert sp[|sp| - 1] == Digit(p % 10) && sq[|sq| - 1] == Digit(q % 10);
      ShowInjective(p / 10, q / 10);
      DigitInjective(p % 10, q % 10);
    } else if p < 10 && q < 10 {
      assert Show(p)[0] == Digit(p) && Show(q)[0] == Digit(q);
      DigitInjective(p, q);
    }
  }

  /** "x{}".format(i) */
  function XName(i: nat): string
  {
    "x" + Show(i)
  }

  lemma XNameInjective(i: nat, j: nat)
    requires XName(i) == XName(j)
    ensures i == j
  {
    assert Show(i) == XName(i)[1..] && Show(j) == XName(j)[1..];
    ShowInjective(i, j);
  }

  /** No companion name collides with the pivot "x". */
  lemma XNameNotPivot(i: nat)
    ensures XName(i) != "x"
  {
    assert |XName(i)| >= 2;
  }
}
