/**
 * The formula layer the generators and the converter build on: a small
 * abstract syntax for the pysmt expressions they construct, and its meaning
 * at a point that gives a truth value to every Boolean name and a number to
 * every real name.
 */
module Formulas {

  /** The expression nodes the core constructs. And, Or, Plus and Times are n-ary. */
  datatype Expr =
    | BoolLit(b: bool)
    | RealLit(r: real)
    | Sym(name: string)
    | Not(arg: Expr)
    | And(args: seq<Expr>)
    | Or(args: seq<Expr>)
    | Iff(left: Expr, right: Expr)
    | Ite(cond: Expr, thn: Expr, els: Expr)
    | LE(left: Expr, right: Expr)
    | LT(left: Expr, right: Expr)
    | Plus(args: seq<Expr>)
    | Minus(left: Expr, right: Expr)
    | Times(args: seq<Expr>)

  /** The messages pysmt raises when asked for a sum or a product of no argument. */
  const NoPlusArguments: string := "Cannot create a Plus without arguments."
  const NoTimesArguments: string := "Cannot create a Times without arguments."

  /** A point: truth values for Boolean names, numbers for real names. */
  datatype Assignment = Assignment(truth: string -> bool, value: string -> real)

  /** Truth of a Boolean-sorted expression; real-sorted nodes read as false. */
  function Holds(e: Expr, a: Assignment): bool
    decreases e
  {
    match e
    case BoolLit(b) => b
    case Sym(x) => a.truth(x)
    case Not(f) => !Holds(f, a)
    case And(args) => forall i | 0 <= i < |args| :: Holds(args[i], a)
    case Or(args) => exists i | 0 <= i < |args| :: Holds(args[i], a)
    case Iff(l, r) => Holds(l, a) == Holds(r, a)
    case Ite(c, t, f) => if Holds(c, a) then Holds(t, a) else Holds(f, a)
    case LE(l, r) => Value(l, a) <= Value(r, a)
    case LT(l, r) => Value(l, a) < Value(r, a)
    case _ => false
  }

  /** Value of a real-sorted expression; Boolean-sorted nodes read as 0. */
  function Value(e: Expr, a: Assignment): real
    decreases e
  {
    match e
    case RealLit(r) => r
    case Sym(x) => a.value(x)
    case Ite(c, t, f) => if Holds(c, a) then Value(t, a) else Value(f, a)
    case Plus(args) => SumOf(args, a)
    case Minus(l, r) => Value(l, a) - Value(r, a)
    case Times(args) => ProductOf(args, a)
    case _ => 0.0
  }

  /** Left-to-right sum of the values; the empty sum is 0. */
  function SumOf(args: seq<Expr>, a: Assignment): real
    decreases args
  {
    if args == [] then 0.0 else SumOf(args[..|args| - 1], a) + Value(args[|args| - 1], a)
  }

  /** Left-to-right product of the values; the empty product is 1. */
  function ProductOf(args: seq<Expr>, a: Assignment): real
    decreases args
  {
    if args == [] then 1.0 else ProductOf(args[..|args| - 1], a) * Value(args[|args| - 1], a)
  }

  /** How many of the formulas hold at `a`. */
  function CountHolding(fs: seq<Expr>, a: Assignment): nat
  {
    if fs == [] then 0
    else CountHolding(fs[..|fs| - 1], a) + (if Holds(fs[|fs| - 1], a) then 1 else 0)
  }

  /** No two distinct formulas of `fs` hold together at `a`. */
  predicate NoTwoHold(fs: seq<Expr>, a: Assignment)
  {
    forall p, q | 0 <= p < q < |fs| :: !(Holds(fs[p], a) && Holds(fs[q], a))
  }

  /** `lb <= v <= ub` as the pair of comparisons the source builds for a bound. */
  function Within(v: string, lb: real, ub: real): (r: Expr)
    ensures forall a :: Holds(r, a) <==> lb <= a.value(v) <= ub
    ensures Symbols(r) == {v}
  {
    BoundPair(v, lb, ub);
    SymbolsOfPair(LE(RealLit(lb), Sym(v)), LE(Sym(v), RealLit(ub)));
    And([LE(RealLit(lb), Sym(v)), LE(Sym(v), RealLit(ub))])
  }

  lemma BoundPair(v: string, lb: real, ub: real)
    ensures forall a :: Holds(And([LE(RealLit(lb), Sym(v)), LE(Sym(v), RealLit(ub))]), a) <==> lb <= a.value(v) <= ub
  {
    AndPair(LE(RealLit(lb), Sym(v)), LE(Sym(v), RealLit(ub)));
    forall a ensures Holds(And([LE(RealLit(lb), Sym(v)), LE(Sym(v), RealLit(ub))]), a) <==> lb <= a.value(v) <= ub {
      assert Holds(LE(RealLit(lb), Sym(v)), a) <==> lb <= a.value(v);
      assert Holds(LE(Sym(v), RealLit(ub)), a) <==> a.value(v) <= ub;
    }
  }

  /** Ite(c, 1, 0): the indicator of a condition. */
  function Indicator(c: Expr): (r: Expr)
    ensures forall a :: Value(r, a) == if Holds(c, a) then 1.0 else 0.0
    ensures Symbols(r) == Symbols(c)
  {
    Ite(c, RealLit(1.0), RealLit(0.0))
  }

  /** The binary `x & y` of pysmt. */
  lemma AndPair(x: Expr, y: Expr)
    ensures forall a :: Holds(And([x, y]), a) <==> Holds(x, a) && Holds(y, a)
  {
    forall a ensures Holds(And([x, y]), a) <==> Holds(x, a) && Holds(y, a) {
      assert [x, y][0] == x && [x, y][1] == y;
    }
  }

  /** The binary `x | y` of pysmt. */
  lemma OrPair(x: Expr, y: Expr)
    ensures forall a :: Holds(Or([x, y]), a) <==> Holds(x, a) || Holds(y, a)
  {
    forall a ensures Holds(Or([x, y]), a) <==> Holds(x, a) || Holds(y, a) {
      assert [x, y][0] == x && [x, y][1] == y;
    }
  }

  lemma CountHoldingSnoc(fs: seq<Expr>, f: Expr, a: Assignment)
    ensures CountHolding(fs + [f], a) == CountHolding(fs, a) + (if Holds(f, a) then 1 else 0)
  {
    assert (fs + [f])[..|fs|] == fs;
  }

  /** Some formula holds exactly when the count is positive. */
  lemma {:induction false} CountPositive(fs: seq<Expr>, a: Assignment)
    ensures CountHolding(fs, a) > 0 <==> exists i | 0 <= i < |fs| :: Holds(fs[i], a)
  {
    if fs != [] {
      var init := fs[..|fs| - 1];
      CountPositive(init, a);
      if exists i | 0 <= i < |init| :: Holds(init[i], a) {
        var i :| 0 <= i < |init| && Holds(init[i], a);
        assert Holds(fs[i], a);
      }
      if exists i | 0 <= i < |fs| :: Holds(fs[i], a) {
        var i :| 0 <= i < |fs| && Holds(fs[i], a);
        if i < |init| { assert Holds(init[i], a); }
      }
    }
  }

  /** "No two hold" is "at most one holds". */
  lemma {:induction false} NoTwoHoldIsAtMostOne(fs: seq<Expr>, a: Assignment)
    ensures NoTwoHold(fs, a) <==> CountHolding(fs, a) <= 1
  {
    if fs != [] {
      var init := fs[..|fs| - 1];
      var last := fs[|fs| - 1];
      NoTwoHoldIsAtMostOne(init, a);
      CountPositive(init, a);
      if NoTwoHold(fs, a) {
        assert NoTwoHold(init, a) by {
          forall p, q | 0 <= p < q < |init| ensures !(Holds(init[p], a) && Holds(init[q], a)) {
            assert init[p] == fs[p] && init[q] == fs[q];
          }
        }
      } else {
        var p, q :| 0 <= p < q < |fs| && Holds(fs[p], a) && Holds(fs[q], a);
        if q < |fs| - 1 {
          assert Holds(init[p], a) && Holds(init[q], a);
          assert !NoTwoHold(init, a);
        } else {
          assert Holds(init[p], a);
        }
      }
    }
  }

  /** Exactly one formula holds iff none two hold together and some one holds. */
  lemma ExactlyOne(fs: seq<Expr>, a: Assignment)
    ensures (NoTwoHold(fs, a) && exists i | 0 <= i < |fs| :: Holds(fs[i], a)) <==> CountHolding(fs, a) == 1
  {
    NoTwoHoldIsAtMostOne(fs, a);
    CountPositive(fs, a);
  }

  /** A product of non-negative factors is non-negative. */
  lemma {:induction false} ProductNonNegative(args: seq<Expr>, a: Assignment)
    requires forall i | 0 <= i < |args| :: Value(args[i], a) >= 0.0
    ensures ProductOf(args, a) >= 0.0
  {
    if args != [] {
      var init := args[..|args| - 1];
      assert forall i | 0 <= i < |init| :: init[i] == args[i];
      ProductNonNegative(init, a);
    }
  }

  /** A product with a zero factor is zero. */
  lemma {:induction false} ProductZero(args: seq<Expr>, a: Assignment, k: nat)
    requires k < |args| && Value(args[k], a) == 0.0
    ensures ProductOf(args, a) == 0.0
  {
    if k < |args| - 1 {
      var init := args[..|args| - 1];
      assert init[k] == args[k];
      ProductZero(init, a, k);
    }
  }

  /** The binary `x * y` of pysmt. */
  lemma TimesPair(x: Expr, y: Expr)
    ensures forall a :: Value(Times([x, y]), a) == Value(x, a) * Value(y, a)
  {
    forall a ensures Value(Times([x, y]), a) == Value(x, a) * Value(y, a) {
      assert [x, y][..1] == [x] && [x][..0] == [];
      assert ProductOf([x], a) == Value(x, a);
      assert ProductOf([x, y], a) == ProductOf([x], a) * Value(y, a);
    }
  }

  /** The binary `x + y` of pysmt. */
  lemma PlusPair(x: Expr, y: Expr)
    ensures forall a :: Value(Plus([x, y]), a) == Value(x, a) + Value(y, a)
  {
    forall a ensures Value(Plus([x, y]), a) == Value(x, a) + Value(y, a) {
      assert [x, y][..1] == [x] && [x][..0] == [];
      assert SumOf([x], a) == Value(x, a);
      assert SumOf([x, y], a) == SumOf([x], a) + Value(y, a);
    }
  }

  /** f(0) * f(1) * ... * f(n - 1); the empty product is 1. */
  function Product(f: nat -> real, n: nat): real
  {
    if n == 0 then 1.0 else Product(f, n - 1) * f(n - 1)
  }

  /** Factors whose values are f(0), f(1), ... multiply to Product(f, |args|). */
  lemma {:induction false} ProductOfValues(args: seq<Expr>, a: Assignment, f: nat -> real)
    requires forall i | 0 <= i < |args| :: Value(args[i], a) == f(i)
    ensures ProductOf(args, a) == Product(f, |args|)
  {
    if args != [] {
      var init := args[..|args| - 1];
      assert forall i | 0 <= i < |init| :: init[i] == args[i];
      ProductOfValues(init, a, f);
    }
  }

  lemma {:induction false} ProductOfNonNegative(f: nat -> real, n: nat)
    requires forall i | 0 <= i < n :: f(i) >= 0.0
    ensures Product(f, n) >= 0.0
  {
    if n > 0 {
      ProductOfNonNegative(f, n - 1);
      NonNegativeProduct(Product(f, n - 1), f(n - 1));
    }
  }

  lemma NonNegativeProduct(p: real, t: real)
    requires p >= 0.0 && t >= 0.0
    ensures p * t >= 0.0
  {
  }

  /** The value of an n-ary product node is the product of its factors' values. */
  lemma ValueOfTimes(args: seq<Expr>, a: Assignment)
    ensures Value(Times(args), a) == ProductOf(args, a)
  {
  }

  /** The value of an n-ary sum node is the sum of its terms' values. */
  lemma ValueOfPlus(args: seq<Expr>, a: Assignment)
    ensures Value(Plus(args), a) == SumOf(args, a)
  {
  }
  // ---------------------------------------------------------------------
  // the names an expression mentions

  /** Every name a Sym node of the expression carries. */
  function Symbols(e: Expr): set<string>
    decreases e
  {
    match e
    case Sym(x) => {x}
    case Not(f) => Symbols(f)
    case And(args) => SymbolsOf(args)
    case Or(args) => SymbolsOf(args)
    case Iff(l, r) => Symbols(l) + Symbols(r)
    case Ite(c, t, f) => Symbols(c) + Symbols(t) + Symbols(f)
    case LE(l, r) => Symbols(l) + Symbols(r)
    case LT(l, r) => Symbols(l) + Symbols(r)
    case Plus(args) => SymbolsOf(args)
    case Minus(l, r) => Symbols(l) + Symbols(r)
    case Times(args) => SymbolsOf(args)
    case _ => {}
  }

  /** The names the arguments mention, together. */
  function SymbolsOf(args: seq<Expr>): set<string>
    decreases args
  {
    if args == [] then {} else SymbolsOf(args[..|args| - 1]) + Symbols(args[|args| - 1])
  }

  /** A name occurs among the arguments exactly when some argument mentions it. */
  lemma {:induction false} SymbolsOfMembers(args: seq<Expr>)
    ensures forall x :: x in SymbolsOf(args) <==> exists i | 0 <= i < |args| :: x in Symbols(args[i])
  {
    if args != [] {
      var init := args[..|args| - 1];
      SymbolsOfMembers(init);
      assert forall i | 0 <= i < |init| :: init[i] == args[i];
    }
  }

  lemma SymbolsOfPair(x: Expr, y: Expr)
    ensures SymbolsOf([x, y]) == Symbols(x) + Symbols(y)
  {
    assert [x, y][..1] == [x] && [x][..0] == [];
    assert SymbolsOf([x]) == Symbols(x);
  }

  /** An n-ary node mentions only names every argument keeps to. */
  lemma NaryWithin(args: seq<Expr>, names: set<string>)
    requires forall i | 0 <= i < |args| :: Symbols(args[i]) <= names
    ensures Symbols(And(args)) <= names && Symbols(Or(args)) <= names
    ensures Symbols(Plus(args)) <= names && Symbols(Times(args)) <= names
  {
    SymbolsOfWithin(args, names);
  }

  /** A conjunction of two formulas mentions only names both of them keep to. */
  lemma AndWithin(x: Expr, y: Expr, names: set<string>)
    requires Symbols(x) <= names && Symbols(y) <= names
    ensures Symbols(And([x, y])) <= names
  {
    SymbolsOfPair(x, y);
  }

  /** Each argument's names are among the arguments' names. */
  lemma {:induction false} SymbolsOfContains(args: seq<Expr>, i: nat)
    requires i < |args|
    ensures Symbols(args[i]) <= SymbolsOf(args)
  {
    if i < |args| - 1 {
      SymbolsOfContains(args[..|args| - 1], i);
    }
  }

  /** The arguments mention only names of `s` exactly when each of them does. */
  lemma SymbolsOfWithin(args: seq<Expr>, s: set<string>)
    ensures SymbolsOf(args) <= s <==> forall i | 0 <= i < |args| :: Symbols(args[i]) <= s
  {
    SymbolsOfMembers(args);
  }

  /** Two points that agree on every name of `s`. */
  predicate AgreeOn(a: Assignment, b: Assignment, s: set<string>)
  {
    forall x | x in s :: a.truth(x) == b.truth(x) && a.value(x) == b.value(x)
  }

  /** An expression means the same at two points that agree on the names it mentions. */
  lemma {:induction false} Agreement(e: Expr, a: Assignment, b: Assignment)
    requires AgreeOn(a, b, Symbols(e))
    ensures Holds(e, a) == Holds(e, b) && Value(e, a) == Value(e, b)
    decreases e
  {
    match e
    case Not(f) => Agreement(f, a, b);
    case And(args) =>
      forall i | 0 <= i < |args| ensures Holds(args[i], a) == Holds(args[i], b) {
        SymbolsOfContains(args, i);
        Agreement(args[i], a, b);
      }
    case Or(args) =>
      forall i | 0 <= i < |args| ensures Holds(args[i], a) == Holds(args[i], b) {
        SymbolsOfContains(args, i);
        Agreement(args[i], a, b);
      }
    case Iff(l, r) => Agreement(l, a, b); Agreement(r, a, b);
    case Ite(c, t, f) => Agreement(c, a, b); Agreement(t, a, b); Agreement(f, a, b);
    case LE(l, r) => Agreement(l, a, b); Agreement(r, a, b);
    case LT(l, r) => Agreement(l, a, b); Agreement(r, a, b);
    case Plus(args) => AgreementOf(args, a, b);
    case Minus(l, r) => Agreement(l, a, b); Agreement(r, a, b);
    case Times(args) => AgreementOf(args, a, b);
    case _ =>
  }

  /** Sums and products of arguments agree at points that agree on the names they mention. */
  lemma {:induction false} AgreementOf(args: seq<Expr>, a: Assignment, b: Assignment)
    requires AgreeOn(a, b, SymbolsOf(args))
    ensures SumOf(args, a) == SumOf(args, b) && ProductOf(args, a) == ProductOf(args, b)
    decreases args
  {
    if args != [] {
      AgreementOf(args[..|args| - 1], a, b);
      Agreement(args[|args| - 1], a, b);
    }
  }
}
