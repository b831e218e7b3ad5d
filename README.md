# wmi-benchmarks: structured generators and the FairSquare converter

This project models two parts of the wmi-benchmarks repository. Both produce
weighted model integration (WMI) problems. Each problem is a density: a
domain of variables, a support formula and a weight term.

- `wmibench/synthetic/synthetic_structured.py` holds the generators of the
  structured benchmark families and their registry:
  - the pivot families `xor` and `mutex`;
  - `click`, `uni`, `dual`, `dual_paths`, `dual_paths_distinct` and
    `and_overlap`;
  - the topology families `tpg_star`, `tpg_3ary_tree` and `tpg_path`,
    which go through `make_from_graph`.
- `wmibench/fairsquare/fairsquare_pysmt.py` converts an encoded FairSquare
  program into a density with three fairness queries.

Formulas are values of a small expression datatype (`Formulas.Expr`). They
are read through an evaluator:
- `Holds` gives the truth of a formula at an assignment of Booleans and reals.
- `Value` gives the value of a real term at that assignment.

Every generator's contract states what its support and weight mean under
that evaluator. Examples:
- the xor fold is a parity;
- the mutex and dual supports say "exactly one atom holds";
- `and_overlap` is a non-decreasing chain;
- a graph clause says two endpoints are at least 1 apart;
- the click weight is never negative.

Every generator also promises that its support and weight mention only
names its domain declares (`Domains.Declared`). By `Formulas.Agreement`, the
meaning of such a density depends on the values of those names only.

The loops of the source are methods with loop invariants:
- the bound, xor and exclusion accumulators;
- the three graph builders, including the layer arithmetic of the 3-ary tree;
- the two loops of the converter.

The module layout:
- `formulas.dfy` (`Formulas`): the expression datatype, the evaluator and
  generic lemmas about n-ary And, Or, Plus and Times.
- `domains.dfy` (`Domains`):
  - `Domain.make` and `get_bounds` of pywmi;
  - the `Density` triple;
  - the variable names `x0`, `x1`, …, with their injectivity.
- `graphs.dfy` (`Graphs`): the networkx graph as a node list and an edge
  list, and the three topology builders.
- `structured.dfy` (`Structured`): the generators, `problem_generators` and
  `get_problem`.
- `fairsquare.dfy` (`FairSquare`): `weight_to_pysmt` and the assembly part of
  `convert`.

Parts of the source are supplied as parameters:
- Random draws are explicit parameters (`Structured.Draws`).
- The Gaussian numerics are explicit parameters (`FairSquare.Numerics`).

## Model

| member | source | states |
|---|---|---|
| Domains.Bounds | wmibench/synthetic/synthetic_structured.py:159 | `get_bounds()` holds exactly when every real variable lies within its declared bounds, and it mentions only names the domain declares |
| Domains.MakeNames | wmibench/synthetic/synthetic_structured.py:12 | `Domain.make` declares exactly the Boolean and real names it is given |
| Domains.Show | wmibench/synthetic/synthetic_structured.py:12 | `str(k)` is a non-empty string of decimal digits, of length 1 exactly for k < 10 |
| Domains.ShowInjective | wmibench/synthetic/synthetic_structured.py:12 | different indices print differently, so the names `x{i}` are pairwise distinct |
| Domains.XNameNotPivot | wmibench/synthetic/synthetic_structured.py:12 | no companion name `x{i}` collides with the pivot name `x` |
| Structured.MakeDomain | wmibench/synthetic/synthetic_structured.py:11-12 | `make_domain(n)` declares no Boolean and n + 1 reals, `x` first and then `x0` … `x{n-1}`, every one in [0, 1] |
| Structured.MakeDomainDistinct | wmibench/synthetic/synthetic_structured.py:11-12 | the n + 1 real names of `make_domain(n)` are pairwise distinct |
| Structured.MakeDomainDeclares | wmibench/synthetic/synthetic_structured.py:11-12 | `x` and every `x{i}` with i < n are names of `make_domain(n)` |
| Structured.XNamesDistinct | wmibench/synthetic/synthetic_structured.py:12 | the names `x0` … `x{m-1}` are pairwise distinct |
| Structured.MakeDistinctBounds | wmibench/synthetic/synthetic_structured.py:19-30 | the accumulated bounds hold exactly when the i-th real lies in [(13 + i)/100, (89 - i)/100] for every i |
| Structured.BoundsStep | wmibench/synthetic/synthetic_structured.py:27-28 | the two conjuncts of iteration i extend the invariant from the first i variables to the first i + 1 |
| Structured.DistinctBoundsSatisfiable | wmibench/synthetic/synthetic_structured.py:20-28 | the staggered bounds can all be met exactly when there are at most 39 variables; beyond that some interval is empty |
| Structured.PivotAtoms | wmibench/synthetic/synthetic_structured.py:38 | atom i holds exactly when `x <= x{i}` |
| Structured.ReversedPermutes | wmibench/synthetic/synthetic_structured.py:43 | reversing the companion names permutes them |
| Structured.PivotLastPermutes | wmibench/synthetic/synthetic_structured.py:43-44 | the flipped variable list has n + 1 names, a permutation of `make_domain`'s, with `x` last |
| Structured.PivotLastVariables | wmibench/synthetic/synthetic_structured.py:43-44 | the flipped domain has no Booleans, and its reals are those of `make_domain(n)` reordered with `x` last |
| Structured.PivotLastBounds | wmibench/synthetic/synthetic_structured.py:12 | every real of the flipped domain keeps the bounds [0, 1] |
| Structured.PivotLastDeclares | wmibench/synthetic/synthetic_structured.py:43-44 | the flipped domain declares the same names as `make_domain(n)` |
| Structured.XorStep | wmibench/synthetic/synthetic_structured.py:41 | `(f ∨ t) ∧ ¬(f ∧ t)` holds exactly when one of f and t holds but not both |
| Structured.XorFoldStep | wmibench/synthetic/synthetic_structured.py:40-41 | folding atom k into a parity of the first k atoms gives the parity of the first k + 1 |
| Structured.XorFold | wmibench/synthetic/synthetic_structured.py:39-41 | the loop from FALSE leaves a formula that holds exactly when an odd number of the atoms hold, and that mentions only the atoms' names |
| Structured.PivotAtomsDeclared | wmibench/synthetic/synthetic_structured.py:35-38 | the atoms `x <= x{i}` mention only names of `make_domain(n)` |
| Structured.Xor | wmibench/synthetic/synthetic_structured.py:33-45 | the support holds exactly when every real is within its staggered bounds and an odd number of the atoms `x <= x{i}` hold; the weight is 1, the domain is the flipped one, and support and weight mention only names it declares |
| Structured.PivotSupport | wmibench/synthetic/synthetic_structured.py:45 | conjoining the bounds with the fold, in either order, reads the bounds over the names `x`, `x0`, … |
| Structured.PairwiseExclusion | wmibench/synthetic/synthetic_structured.py:58-60 | after the nested i < j loop the formula holds exactly when the start formula holds and no two terms hold together |
| Structured.ExclusionStep | wmibench/synthetic/synthetic_structured.py:60 | conjoining `¬t_i ∨ ¬t_j` excludes the pair (i, j) in addition to the pairs visited before |
| Structured.ExclusionRow | wmibench/synthetic/synthetic_structured.py:58-59 | finishing row i of the nested loop is starting row i + 1 |
| Structured.ExclusionDone | wmibench/synthetic/synthetic_structured.py:58-59 | once every row is done, every pair is excluded |
| Structured.ExactlyOneTerm | wmibench/synthetic/synthetic_structured.py:62 | pairwise exclusion conjoined with the disjunction of the terms holds exactly when exactly one term holds |
| Structured.MutualExclusive | wmibench/synthetic/synthetic_structured.py:48-66 | the support holds exactly when every real is within its staggered bounds and exactly one atom `x <= x{i}` holds; the weight is 1; support and weight mention only declared names |
| Structured.OneAtomPointBounds | wmibench/synthetic/synthetic_structured.py:19-30 | for n ≤ 38 a concrete point lies within all the staggered bounds |
| Structured.OneAtomPointCount | wmibench/synthetic/synthetic_structured.py:38 | at that point exactly one pivot atom holds |
| Structured.PivotProblemsSatisfiable | wmibench/synthetic/synthetic_structured.py:33-66 | the xor and mutex supports are satisfiable exactly when 1 ≤ n ≤ 38 |
| Structured.PairAtoms | wmibench/synthetic/synthetic_structured.py:154 | pair comparison i holds exactly when `x{2i} <= x{2i+1}` |
| Structured.Dual | wmibench/synthetic/synthetic_structured.py:150-159 | there are 2n reals in [0, 1]; the support holds exactly when they are within bounds and exactly one pair comparison holds; the weight is 1; only declared names occur |
| Structured.ExactlyOneWithin | wmibench/synthetic/synthetic_structured.py:155-159 | the disjunction conjoined with pairwise exclusion and the bounds says "within bounds, and exactly one term holds" |
| Structured.DualDeclared | wmibench/synthetic/synthetic_structured.py:150-159 | the support and weight of `dual(n)` mention only names its domain declares |
| Structured.ChainAtoms | wmibench/synthetic/synthetic_structured.py:172 | `and_overlap` builds max(n - 1, 0) terms, term i holding exactly when `x{i} <= x{i+1}` |
| Structured.ChainIsNonDecreasing | wmibench/synthetic/synthetic_structured.py:172-173 | consecutive comparisons give the whole chain `x0 <= x1 <= … <= x{n-1}` |
| Structured.ChainHolds | wmibench/synthetic/synthetic_structured.py:173 | the conjunction of the terms holds exactly when the values are non-decreasing |
| Structured.AndOverlap | wmibench/synthetic/synthetic_structured.py:169-174 | n reals in [0, 1]; the support holds exactly when they are within bounds and non-decreasing in index; the weight is 1; only declared names occur |
| Structured.SeparationClause | wmibench/synthetic/synthetic_structured.py:181 | the clause `x_i + 1 <= x_j ∨ x_j <= x_i - 1` holds exactly when the two values are at least 1 apart |
| Structured.MakeFromGraph | wmibench/synthetic/synthetic_structured.py:177-183 | one real in [-1, 1] per node; the support has one clause per edge and holds exactly when within bounds and every edge's endpoints are separated; the weight is 1; only declared names occur |
| Structured.GraphDeclared | wmibench/synthetic/synthetic_structured.py:177-183 | the clauses and bounds of `make_from_graph` mention only the node variables it declares |
| Structured.TriangleTerm | wmibench/synthetic/synthetic_structured.py:145 | each weight factor is the triangular density: 1 - \|v\| on (-1, 1) and 0 elsewhere |
| Structured.TriangleTermsValue | wmibench/synthetic/synthetic_structured.py:145-146 | the product of the factors is the product of the triangular densities, and it is never negative |
| Structured.AboveHalf | wmibench/synthetic/synthetic_structured.py:144 | support term i holds exactly when `x{i} > 0.5` |
| Structured.Univariate | wmibench/synthetic/synthetic_structured.py:141-147 | fails with pysmt's "Cannot create a Times without arguments" exactly when n = 0; otherwise n reals in [-2, 2], the support says every variable exceeds 0.5, the weight is the product of the triangular densities and is non-negative, and only declared names occur |
| Structured.UnivariateDeclared | wmibench/synthetic/synthetic_structured.py:141-147 | the support and weight of `univariate(n)` mention only the n variables it declares |
| Structured.UnitIndicator | wmibench/synthetic/synthetic_structured.py:132-134 | `t(v >= 0) * t(v <= 1)` is 1 on [0, 1] and 0 elsewhere, and mentions v only |
| Structured.Bernoulli | wmibench/synthetic/synthetic_structured.py:133-135 | `Ite(c, p, 1 - p)` is p where c holds and 1 - p elsewhere, and mentions c and p only |
| Structured.ClickNode | wmibench/synthetic/synthetic_structured.py:125-126 | the node-i constraint holds exactly when `cl_i_0` copies `b_i_0` and `cl_i_1` copies `b_i_0` or `b_i_1`, as `sim_i` says |
| Structured.CopyOrChoose | wmibench/synthetic/synthetic_structured.py:125-126 | the Iff/Or shape of one node means "copy, then choose" |
| Structured.PairNamesDistinct | wmibench/synthetic/synthetic_structured.py:111-115 | the 2n names `{prefix}_{i}_{j}` are pairwise distinct |
| Structured.ChoiceSymbols | wmibench/synthetic/synthetic_structured.py:125-126 | the constraint of one node mentions exactly its `sim`, two `b` and two `cl` names |
| Structured.ClickFactorsLayout | wmibench/synthetic/synthetic_structured.py:132-137 | factor 0 is the `sim_x` indicator, then n Bernoullis over `sim_x`, then 2n `b_x` indicators, then 2n Bernoullis |
| Structured.ClickDomain | wmibench/synthetic/synthetic_structured.py:108-117 | Boolean i is `sim_i`, Boolean n + k is the k-th `cl` pair name and Boolean 3n + k the k-th `b` pair name (5n in all); the 1 + 2n reals are `sim_x` then the `b_x` pair names, each in [0, 1] |
| Structured.ClickNamesDistinct | wmibench/synthetic/synthetic_structured.py:108-117 | the 5n Boolean names are pairwise distinct, so are the 1 + 2n real names, and no name is both Boolean and real |
| Structured.ClickDomainDeclares | wmibench/synthetic/synthetic_structured.py:108-117 | every `sim_i`, every `cl` and `b` pair name and every real read by the constraints and factors is a name of the click domain |
| Structured.ClickDeclared | wmibench/synthetic/synthetic_structured.py:124-137 | the support and weight of `click_graph(n)` mention only names of the click domain |
| Structured.ClickGraph | wmibench/synthetic/synthetic_structured.py:103-138 | the support has n conjuncts and holds exactly when every node is consistent; the weight is the product of the factors and is never negative; support and weight mention only names of the click domain |
| Structured.ClickBounds | wmibench/synthetic/synthetic_structured.py:116 | the click domain's bounds put `sim_x` and every `b_x` in [0, 1] |
| Structured.ClickWeightSupport | wmibench/synthetic/synthetic_structured.py:132-137 | the click weight is non-negative, and it is 0 wherever some real leaves [0, 1] |
| Structured.ClickWeightOutside | wmibench/synthetic/synthetic_structured.py:132-137 | a real outside [0, 1] makes one indicator, and so the whole product, 0 |
| Structured.ClickZeroFactor | wmibench/synthetic/synthetic_structured.py:132-134 | for a real outside [0, 1] the index of the indicator factor that vanishes |
| Structured.ClickWeightNonNegative | wmibench/synthetic/synthetic_structured.py:137 | the click weight is non-negative at every point |
| Structured.DrawnTerm | wmibench/synthetic/synthetic_structured.py:76 | a drawn term holds exactly when `v1 * c1 <= v2 * c2`, and mentions exactly the two sampled variables |
| Structured.Path | wmibench/synthetic/synthetic_structured.py:80 | a path, the terms conjoined in any drawn order, holds exactly when every term holds, and mentions only names the terms mention |
| Structured.DrawTerms | wmibench/synthetic/synthetic_structured.py:74-76 | the term loop builds one term per draw, in order |
| Structured.DrawPaths | wmibench/synthetic/synthetic_structured.py:78-80 | the path loop builds one path per drawn ordering, in order |
| Structured.PathsDisjunction | wmibench/synthetic/synthetic_structured.py:82 | the disjunction of the paths holds exactly when there is a path and every term holds |
| Structured.DualPaths | wmibench/synthetic/synthetic_structured.py:69-82 | fails with the `random.sample` error exactly when n = 1; otherwise n reals in [0, 1], weight 1, the support holds exactly when within bounds, n ≥ 1 and every drawn term holds, and only declared names occur |
| Structured.PathsDeclared | wmibench/synthetic/synthetic_structured.py:69-82 | the support of `dual_paths(n)` mentions only the n variables it declares |
| Structured.PathWeight | wmibench/synthetic/synthetic_structured.py:97 | `Ite(path, i, 0)` is i where the path holds and 0 elsewhere, and mentions the names of the path only |
| Structured.TriangularClosedForm | wmibench/synthetic/synthetic_structured.py:96-100 | 0 + 1 + … + (m - 1) is m(m - 1)/2 |
| Structured.PathWeightsSum | wmibench/synthetic/synthetic_structured.py:100 | when all paths hold, the path weights sum to the triangular number; when none holds, to 0 |
| Structured.DualPathsDistinct | wmibench/synthetic/synthetic_structured.py:85-100 | fails exactly when n ≤ 1: with the `random.sample` error at n = 1 and with pysmt's "Cannot create a Plus without arguments" at n = 0; otherwise the support is the bounds, the weight is 0 + 1 + … + (n - 1) where every drawn term holds and 0 elsewhere, and only declared names occur |
| Structured.WeightsDeclared | wmibench/synthetic/synthetic_structured.py:85-100 | the support and weight of `dual_paths_distinct(n)` mention only the n variables it declares |
| Structured.DrawWeightedPaths | wmibench/synthetic/synthetic_structured.py:95-97 | the path loop gives path k the weight term `Ite(path_k, k, 0)` |
| Structured.DistinctWeights | wmibench/synthetic/synthetic_structured.py:97-100 | the sum of the path weights is the triangular number where every term holds and 0 elsewhere |
| Structured.TriangularNonNegative | wmibench/synthetic/synthetic_structured.py:100 | that triangular number is never negative |
| Structured.GetProblem | wmibench/synthetic/synthetic_structured.py:233-237 | a found generator is the one registered under the name; an unknown name gives the message `No problem with name …` |
| Structured.GetProblemKeys | wmibench/synthetic/synthetic_structured.py:216-237 | a name is found exactly when it is a key of the table, and every key finds its own entry |
| Structured.BuiltNodesCount | wmibench/synthetic/synthetic_structured.py:178 | a builder's graph over n ≥ 2 nodes has n nodes; over 0 or 1 node it has none |
| Structured.Generate | wmibench/synthetic/synthetic_structured.py:216-237 | `get_problem(name)(n)` fails exactly when the call raises: the dual_paths families at n = 1, and uni and dual_paths_distinct at n = 0; otherwise the density is the one of the entry's own generator (`Instance`: xor's odd parity, mutex's exactly one atom, the star's, path's or 3-ary tree's separated edges, and so on), its weight is non-negative and it mentions only declared names; a graph family has one variable per node and one clause per edge |
| Structured.GenerateGraph | wmibench/synthetic/synthetic_structured.py:227-229 | the tpg entries give a non-negative weight, only declared names, one variable in [-1, 1] per built node (none for n ≤ 1) and max(n - 1, 0) clauses; the support holds iff every variable is in [-1, 1] and the ends of edge k are at least 1 apart, edge k being (0, k + 1) for tpg_star, (k / 3, k + 1) for tpg_3ary_tree and (k, k + 1) for tpg_path |
| Structured.StarOfFour | wmibench/synthetic/synthetic_structured.py:177-190 | the tpg_star(4) density has four variables and three clauses, and its support holds iff every variable is in [-1, 1] and x0 is at least 1 away from each of x1, x2 and x3 |
| Structured.GenerateOther | wmibench/synthetic/synthetic_structured.py:216-225 | the other entries fail exactly when the call raises (dual_paths families at n = 1, uni and dual_paths_distinct at n = 0); otherwise uni is every variable above 0.5 with the triangular product as weight, dual_paths is bounds with every drawn term holding, dual_paths_distinct is the bounds with weight T(n) where every drawn term holds and 0 elsewhere, and the rest as for GenerateTotal; weights are non-negative and only declared names occur |
| Structured.GenerateTotal | wmibench/synthetic/synthetic_structured.py:216-225 | xor, mutex, click, dual and and_overlap never raise and each gives its own generator's density: xor an odd number of pivot atoms and mutex exactly one, both within the staggered bounds; click every node consistent with the product of its factors; dual exactly one pair comparison; and_overlap non-decreasing values; weights are non-negative and only declared names occur |
| Graphs.AddEdgeToNext | wmibench/synthetic/synthetic_structured.py:189 | `add_edge(u, t)` on the graph over nodes 0..t-1 appends node t and the new edge |
| Graphs.AddEdgeKeeps | wmibench/synthetic/synthetic_structured.py:189 | `add_edge(u, v)` keeps the nodes and edges already there in order, adds exactly the missing endpoints and keeps nodes unique, and adds the edge once unless present in either orientation |
| Graphs.TpgStar | wmibench/synthetic/synthetic_structured.py:186-190 | max(n - 1, 0) edges, edge k being (0, k + 1); the nodes are 0..n-1, or none for n ≤ 1 |
| Graphs.TpgPath | wmibench/synthetic/synthetic_structured.py:209-213 | max(n - 1, 0) edges, edge k being (k, k + 1); the nodes are 0..n-1, or none for n ≤ 1 |
| Graphs.Tpg3aryTree | wmibench/synthetic/synthetic_structured.py:193-206 | max(n - 1, 0) edges; edge k is ((k) / arity, k + 1), so node t ≥ 1 gets parent (t - 1) / arity < t; the nodes are 0..n-1, or none for n ≤ 1 |
| Graphs.AddLayer | wmibench/synthetic/synthetic_structured.py:199-202 | one layer of the inner loop keeps the shape "edge k is (k / arity, k + 1)" for the new nodes |
| Graphs.LayerChild | wmibench/synthetic/synthetic_structured.py:200-202 | the source `i // arity + e - arity ** (depth - 1)` of child e + i is non-negative and is the parent (e + i - 1) / arity |
| Graphs.LayerParent | wmibench/synthetic/synthetic_structured.py:200 | at the start of a full layer the source formula equals (e + i - 1) / arity |
| Graphs.TreeGrow | wmibench/synthetic/synthetic_structured.py:202 | adding the edge from parent (t - 1) / arity to t extends the tree shape by one node |
| Graphs.LayerNext | wmibench/synthetic/synthetic_structured.py:198-204 | each outer iteration strictly increases e without passing n, and a full layer leaves the next one aligned |
| Graphs.LayerStep | wmibench/synthetic/synthetic_structured.py:203-204 | after a full layer of arity ** depth nodes the next layer is aligned at depth + 1 |
| Graphs.TreeEdgesForward | wmibench/synthetic/synthetic_structured.py:200-201 | every tree edge goes from a smaller to a larger index |
| Graphs.TreeChildrenBound | wmibench/synthetic/synthetic_structured.py:198-202 | the children of s lie in the block s·arity + 1 … s·arity + arity, so no source has more than arity children |
| Graphs.ChildInBlock | wmibench/synthetic/synthetic_structured.py:200-201 | a child t of s satisfies s·arity + 1 ≤ t < s·arity + 1 + arity |
| Graphs.TreeTargetsOnce | wmibench/synthetic/synthetic_structured.py:193-206 | every node 1..n-1 is the target of exactly one edge, and no other node is a target |
| Formulas.Within | wmibench/fairsquare/fairsquare_pysmt.py:56-57 | `And(LE(lb, v), LE(v, ub))` holds exactly when lb ≤ v ≤ ub, and mentions v only |
| Formulas.Indicator | wmibench/synthetic/synthetic_structured.py:104-105 | `Ite(c, 1, 0)` is 1 where c holds and 0 elsewhere, and mentions the names of c only |
| Formulas.CountPositive | wmibench/synthetic/synthetic_structured.py:62 | `Or(*terms)` holds exactly when the count of holding terms is positive |
| Formulas.NoTwoHoldIsAtMostOne | wmibench/synthetic/synthetic_structured.py:58-60 | "no two terms hold together" is "at most one term holds" |
| Formulas.ExactlyOne | wmibench/synthetic/synthetic_structured.py:58-62 | no two hold and some holds, exactly when exactly one holds |
| Formulas.ProductNonNegative | wmibench/synthetic/synthetic_structured.py:137 | a product of non-negative factors is non-negative |
| Formulas.ProductZero | wmibench/synthetic/synthetic_structured.py:137 | a product with a zero factor is zero |
| Formulas.ProductOfValues | wmibench/synthetic/synthetic_structured.py:145 | factors whose values are f(0), f(1), … multiply to the product of f over the same range |
| Formulas.ProductOfNonNegative | wmibench/synthetic/synthetic_structured.py:145 | a product of non-negative values is non-negative |
| Formulas.SymbolsOfMembers | wmibench/synthetic/synthetic_structured.py:137 | a name occurs in an n-ary node exactly when it occurs in one of its arguments |
| Formulas.Agreement | wmibench/synthetic/synthetic_structured.py:138 | two assignments that agree on every name a formula mentions give it the same truth and the same value, so a density that mentions only declared names is read entirely over its domain |
| FairSquare.MinLower | wmibench/fairsquare/fairsquare_pysmt.py:45 | the smallest x1 is at most every step's x1 and is the x1 of some step |
| FairSquare.MaxUpper | wmibench/fairsquare/fairsquare_pysmt.py:46 | the largest x2 is at least every step's x2 and is the x2 of some step |
| FairSquare.StepTerm | wmibench/fairsquare/fairsquare_pysmt.py:43-44 | a step term is p where x1 ≤ v < x2 and 0 elsewhere |
| FairSquare.StepwiseValue | wmibench/fairsquare/fairsquare_pysmt.py:42-48 | the sum of the step terms is the total mass p of the steps whose [x1, x2) contains v |
| FairSquare.MassOutside | wmibench/fairsquare/fairsquare_pysmt.py:42-48 | where no step contains v the mass is 0 |
| FairSquare.StepwiseZeroOutsideBounds | wmibench/fairsquare/fairsquare_pysmt.py:42-50 | below the lower bound or at or above the upper bound the stepwise factor is 0 |
| FairSquare.StepwiseFactor | wmibench/fairsquare/fairsquare_pysmt.py:38-50 | the stepwise branch gives the sum of the step terms with bounds [min x1, max x2], and fails on an empty step list, where `Plus(*steps)` raises |
| FairSquare.StepTermsSnoc | wmibench/fairsquare/fairsquare_pysmt.py:44 | one iteration appends the term of its step |
| FairSquare.LowestLeftSnoc | wmibench/fairsquare/fairsquare_pysmt.py:45 | `np.min([xmin, x1])` from +∞ tracks the smallest x1 so far |
| FairSquare.HighestRightSnoc | wmibench/fairsquare/fairsquare_pysmt.py:46 | `np.max([xmax, x2])` from -∞ tracks the largest x2 so far |
| FairSquare.GaussianFactor | wmibench/fairsquare/fairsquare_pysmt.py:27-36 | the Gaussian factor is the density term, lb is the ε/2 quantile, and ub - mean = mean - lb |
| FairSquare.EntrySpec | wmibench/fairsquare/fairsquare_pysmt.py:27-53 | an entry fails exactly when it is not a Gaussian of positive variance or a non-empty stepwise: `Unsupported dist: {tag}` for an unknown tag, a variance ≤ 0, whose coefficient at line 29 is no finite Real, an empty step list where `Plus` raises |
| FairSquare.PartsErrPersists | wmibench/fairsquare/fairsquare_pysmt.py:52-53 | once an entry has failed, the whole conversion fails with that error |
| FairSquare.WeightToPysmt | wmibench/fairsquare/fairsquare_pysmt.py:22-60 | the loop returns the specification of weight_to_pysmt: And of the bounds and Times of the factors, the first entry's error, or pysmt's "Cannot create a Times without arguments" for an empty vdist |
| FairSquare.PartsOk | wmibench/fairsquare/fairsquare_pysmt.py:25-58 | the entry loop succeeds exactly when every entry is a Gaussian of positive variance or a non-empty stepwise |
| FairSquare.PartsShape | wmibench/fairsquare/fairsquare_pysmt.py:55-58 | one factor and one bound per entry, in order: factor i is entry i's, and bound i holds exactly when variable i lies within entry i's bounds |
| FairSquare.WeightBounds | wmibench/fairsquare/fairsquare_pysmt.py:56-60 | for a non-empty vdist of supported entries the conversion succeeds, and the bound conjunction holds exactly when every variable lies within its entry's bounds |
| FairSquare.Queries | wmibench/fairsquare/fairsquare_pysmt.py:88-90 | the queries are minority, minority ∧ hired and ¬minority ∧ hired; the last two are disjoint, together cover hired, and the second implies the first |
| FairSquare.ProgramFormula | wmibench/fairsquare/fairsquare_pysmt.py:78-80 | the program formula holds exactly when model, program and every mutex formula hold |
| FairSquare.Convert | wmibench/fairsquare/fairsquare_pysmt.py:63-97 | fails exactly when vdist is empty (the empty product) or some entry is unsupported, with that error; otherwise the support is program ∧ bounds, the weight is the product of the factors and the queries are the three above |

## Left out

- `main()` in both files: argument parsing, seeding, directory creation, `density.to_file` and `sys.argv` are I/O.
- The opening lines of `convert`: reading the input file, `ast.parse`, the `Encoder` visit and the progress `print`s are I/O and parsing. The encoded program is the parameter `FairSquare.Encoding`.
- The optional `to_file` at the end of `convert` is I/O.
- `z3_to_pysmt` is a textual round trip through z3 and the SMT-LIB parser of pysmt. The model takes its formulas as already converted, so it acts as the identity.
- `smt.simplify` in `mutual_exclusive` is a library rewrite that preserves meaning. The model keeps the unsimplified formula, which has the same meaning.
- `mspn_tree` is an empty stub. `flip_domain` is never called.
- FairSquare.GaussianFactor: the Gaussian density expression (`np.sqrt`, `Exp`, `np.pi`) and `norm.ppf` are floating-point library numerics. They are parameters (`Numerics`), so only the relation ub = 2·mean - lb is proved.
- Floating point: every constant and every value is an exact real. Examples: 0.13 + i·0.01 is (13 + i)/100, and epsilon 1e-3 is 1/1000. Rounding is not modelled.
- Structured.DualPaths, Structured.DualPathsDistinct: `random.sample` and `random.random` are not modelled. Their draws are parameters (`Draws`), constrained only to what those functions can return.
- pysmt's `And()` and `Or()` with no argument are TRUE and FALSE, and the model's empty And and Or mean the same. pysmt's `Plus()` and `Times()` with no argument raise. Every place where the source can build one is modelled as that error: `univariate(0)`, `dual_paths_distinct(0)`, an empty step list and an empty `vdist`. `Formulas.Value` still reads an empty sum as 0 and an empty product as 1, but no modelled operation returns one.
- With a single argument pysmt returns the argument itself, for example the weight of `click_graph(0)`. The model keeps a one-argument node, which has the same meaning.
- pysmt's unary minus in `univariate` is written here as a product with -1.
- Sorts: the expression datatype is untyped. A real-sorted term read as a formula is false, and a formula read as a number is 0. pysmt would reject such terms.
- Graphs.Tpg3aryTree: requires arity ≥ 1 when n ≥ 2, because with arity 0 the while loop never ends. The registry always passes 3.
- Structured.MakeFromGraph: requires every edge endpoint to be below the number of nodes, which the three builders guarantee. For other graphs the source would index past the end of its symbol list.
- The model reads `graph.edges` in insertion order. networkx instead lists, node by node in insertion order, the edges to neighbours not listed yet. For the star, path and tree builders the two orders coincide, and so does the orientation of each pair. Other graphs are not modelled.
- `vdist` is a Python dict, so its keys are distinct. The model takes a sequence of entries and does not require distinct names.
- FairSquare.EntrySpec: a stepwise entry with no steps makes `Plus(*steps)` raise. The model reports it as the error `EmptySteps`, without the library's message.
- FairSquare.EntrySpec: a Gaussian entry whose variance is not positive raises in the source. Zero makes the NumPy coefficient at line 29 infinite and a negative variance makes it nan, and `Real(float(...))` refuses both. The model reports both as the error `InvalidVariance`, without the library's exception type or message.
