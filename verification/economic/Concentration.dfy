/**
 The Herfindahl-Hirschman index and the four-firm ratio in exact arithmetic (packages/economic/src/concentration.ts).
 */
module Concentration {
  import opened Prelude
  import opened Sorting

  datatype Tier = Unconcentrated | ModeratelyConcentrated | HighlyConcentrated

  datatype Hhi = Hhi(hhi: real, tier: Tier, firms: nat, topShare: real, cr4: Option<real>)

  /** A report, or the RangeError that is thrown. */
  datatype Outcome = Report(value: Hhi) | OutOfRange

  const UNCONCENTRATED_CEILING: real := 1500.0
  const MODERATE_CEILING: real := 2500.0
  const MAX_POSSIBLE: real := 10000.0
  const TOTAL_TOLERANCE: real := 100.001

  function Sum(s: seq<real>): real {
    if s == [] then 0.0 else Sum(s[..|s| - 1]) + s[|s| - 1]
  }

  function Square(x: real): real { x * x }

  function SumOf(f: real -> real, s: seq<real>): real {
    if s == [] then 0.0 else SumOf(f, s[..|s| - 1]) + f(s[|s| - 1])
  }

  function Squares(s: seq<real>): real { SumOf(Square, s) }

  function Largest(s: seq<real>): real {
    if s == [] then 0.0
    else if s[|s| - 1] > Largest(s[..|s| - 1]) then s[|s| - 1]
    else Largest(s[..|s| - 1])
  }

  predicate NonNegative(s: seq<real>) {
    forall i :: 0 <= i < |s| ==> s[i] >= 0.0
  }

  /** `Math.round(x * 100) / 100`. */
  function Rounded(x: real): real {
    (x * 100.0 + 0.5).Floor as real / 100.0
  }

  function Min(a: real, b: real): real { if a <= b then a else b }

  /** The sizes from the largest to the smallest. */
  function Descending(s: seq<real>): (r: seq<real>)
    ensures |r| == |s|
  {
    Sorted(Falling, s)
  }

  function Take(s: seq<real>, k: nat): seq<real> { if |s| <= k then s else s[..k] }

  /** The share of the four largest. */
  function Cr4(s: seq<real>): real { Sum(Take(Descending(s), 4)) }

  function TierOf(hhi: real): Tier {
    if hhi > MODERATE_CEILING then HighlyConcentrated
    else if hhi >= UNCONCENTRATED_CEILING then ModeratelyConcentrated
    else Unconcentrated
  }

  function ReportedHhi(shares: seq<real>): real { Min(Rounded(Squares(shares)), MAX_POSSIBLE) }

  function FromShares(shares: seq<real>): Outcome {
    if shares == [] then Report(Hhi(0.0, Unconcentrated, 0, 0.0, None))
    else if !NonNegative(shares) || Sum(shares) > TOTAL_TOLERANCE then OutOfRange
    else Report(Hhi(ReportedHhi(shares), TierOf(ReportedHhi(shares)), |shares|, Rounded(Largest(shares)), Some(Rounded(Cr4(shares)))))
  }

  function Share(v: real, total: real): real
    requires total != 0.0
  {
    v / total * 100.0
  }

  function SharesOfTotal(values: seq<real>, total: real): (r: seq<real>)
    requires total != 0.0
    ensures |r| == |values| && forall i :: 0 <= i < |r| ==> r[i] == Share(values[i], total)
  {
    seq(|values|, i requires 0 <= i < |values| => Share(values[i], total))
  }

  function SharesOf(values: seq<real>): (r: seq<real>)
    requires Sum(values) != 0.0
  {
    SharesOfTotal(values, Sum(values))
  }

  function FromValues(values: seq<real>): Outcome {
    if values == [] then Report(Hhi(0.0, Unconcentrated, 0, 0.0, None))
    else if !NonNegative(values) then OutOfRange
    else if Sum(values) == 0.0 then Report(Hhi(0.0, Unconcentrated, |values|, 0.0, None))
    else FromShares(SharesOf(values))
  }

  // ----- the loops of the source -----

  /** `calculateHhiFromShares`: accumulates total, squares and maximum, then sorts and slices. */
  method CalculateHhiFromShares(shares: seq<real>) returns (r: Outcome)
    ensures r == FromShares(shares)
  {
    if shares == [] {
      return Report(Hhi(0.0, Unconcentrated, 0, 0.0, None));
    }
    var totalShare, sumOfSquares, maxShare := 0.0, 0.0, 0.0;
    for i := 0 to |shares|
      invariant NonNegative(shares[..i])
      invariant totalShare == Sum(shares[..i]) && sumOfSquares == Squares(shares[..i]) && maxShare == Largest(shares[..i])
    {
      var s := shares[i];
      assert shares[..i + 1][..i] == shares[..i];
      if s < 0.0 {
        return OutOfRange;
      }
      totalShare := totalShare + s;
      sumOfSquares := sumOfSquares + s * s;
      if s > maxShare {
        maxShare := s;
      }
    }
    assert shares[..|shares|] == shares;
    if totalShare > TOTAL_TOLERANCE {
      return OutOfRange;
    }
    var hhi := Min(Rounded(sumOfSquares), MAX_POSSIBLE);
    var tier := Unconcentrated;
    if hhi > MODERATE_CEILING {
      tier := HighlyConcentrated;
    } else if hhi >= UNCONCENTRATED_CEILING {
      tier := ModeratelyConcentrated;
    }
    var sorted := Sort(Falling, shares);
    var top := Take(sorted, 4);
    var cr4 := 0.0;
    for i := 0 to |top|
      invariant cr4 == Sum(top[..i])
    {
      assert top[..i + 1][..i] == top[..i];
      cr4 := cr4 + top[i];
    }
    assert top[..|top|] == top;
    r := Report(Hhi(hhi, tier, |shares|, Rounded(maxShare), Some(Rounded(cr4))));
  }

  /** `calculateHhiFromValues`: turns sizes into percentages of their total. */
  method CalculateHhiFromValues(values: seq<real>) returns (r: Outcome)
    ensures r == FromValues(values)
  {
    if values == [] {
      return Report(Hhi(0.0, Unconcentrated, 0, 0.0, None));
    }
    var total := 0.0;
    for i := 0 to |values|
      invariant NonNegative(values[..i]) && total == Sum(values[..i])
    {
      assert values[..i + 1][..i] == values[..i];
      if values[i] < 0.0 {
        return OutOfRange;
      }
      total := total + values[i];
    }
    assert values[..|values|] == values;
    if total == 0.0 {
      return Report(Hhi(0.0, Unconcentrated, |values|, 0.0, None));
    }
    r := CalculateHhiFromShares(SharesOf(values));
  }

  // ----- sums -----

  lemma SquareIsNonNegative(x: real)
    ensures Square(x) >= 0.0
  {
  }

  lemma {:induction false} SumIsNonNegative(s: seq<real>)
    requires NonNegative(s)
    ensures Sum(s) >= 0.0
  {
    if s != [] { SumIsNonNegative(s[..|s| - 1]); }
  }

  /** A function of every size. */
  function Mapped(f: real -> real, s: seq<real>): (r: seq<real>)
    ensures |r| == |s| && forall i :: 0 <= i < |s| ==> r[i] == f(s[i])
  {
    if s == [] then [] else Mapped(f, s[..|s| - 1]) + [f(s[|s| - 1])]
  }

  function Scaling(c: real): real -> real { x => x * c }

  function Same(): real -> real { x => x }

  /** The sizes times a factor. */
  function Times(s: seq<real>, c: real): (r: seq<real>)
    ensures |r| == |s|
  {
    Mapped(Scaling(c), s)
  }

  lemma SquareOfProduct(x: real, c: real)
    ensures Square(x * c) == Square(x) * Square(c)
  {
  }

  lemma Distribute(a: real, b: real, c: real)
    ensures (a + b) * c == a * c + b * c
  {
  }

  predicate Adds(g: real -> real, a: real, b: real) { g(a + b) == g(a) + g(b) }

  ghost predicate Additive(g: real -> real) {
    g(0.0) == 0.0 && forall a, b :: Adds(g, a, b)
  }

  /** What f does to a size, g does to its measure. */
  predicate Carries(measure: real -> real, f: real -> real, g: real -> real, x: real) {
    measure(f(x)) == g(measure(x))
  }

  lemma MappedUnfolds(f: real -> real, s: seq<real>)
    requires s != []
    ensures Mapped(f, s)[..|s| - 1] == Mapped(f, s[..|s| - 1])
  {
  }

  /** A sum of measures goes through every additive function. */
  lemma {:induction false} SumsAreCarried(measure: real -> real, f: real -> real, g: real -> real, s: seq<real>)
    requires Additive(g) && forall x :: Carries(measure, f, g, x)
    ensures SumOf(measure, Mapped(f, s)) == g(SumOf(measure, s))
  {
    if s != [] {
      var front, x := s[..|s| - 1], s[|s| - 1];
      SumsAreCarried(measure, f, g, front);
      MappedUnfolds(f, s);
      assert Carries(measure, f, g, x) && Adds(g, SumOf(measure, front), measure(x));
    }
  }

  lemma {:induction false} SumOfSame(s: seq<real>)
    ensures SumOf(Same(), s) == Sum(s)
  {
    if s != [] { SumOfSame(s[..|s| - 1]); }
  }

  lemma ScalingIsAdditive(c: real)
    ensures Additive(Scaling(c))
  {
    forall a: real, b: real ensures Adds(Scaling(c), a, b) { Distribute(a, b, c); }
  }

  lemma ScaledSum(s: seq<real>, c: real)
    ensures Sum(Times(s, c)) == Sum(s) * c
  {
    ScalingIsAdditive(c);
    assert forall x :: Carries(Same(), Scaling(c), Scaling(c), x);
    SumsAreCarried(Same(), Scaling(c), Scaling(c), s);
    SumOfSame(Times(s, c));
    SumOfSame(s);
  }

  lemma ScaledSquares(s: seq<real>, c: real)
    ensures Squares(Times(s, c)) == Squares(s) * Square(c)
  {
    ScalingIsAdditive(Square(c));
    forall x: real ensures Carries(Square, Scaling(c), Scaling(Square(c)), x) { SquareOfProduct(x, c); }
    SumsAreCarried(Square, Scaling(c), Scaling(Square(c)), s);
  }

  lemma PercentOf(v: real, t: real)
    requires t != 0.0
    ensures Share(v, t) == v * (100.0 / t)
  {
  }

  lemma SharesAreScaled(values: seq<real>, t: real)
    requires t != 0.0
    ensures SharesOfTotal(values, t) == Times(values, 100.0 / t)
  {
    forall i | 0 <= i < |values| ensures SharesOfTotal(values, t)[i] == Times(values, 100.0 / t)[i] {
      PercentOf(values[i], t);
    }
  }

  /** The shares of any sizes with a positive total add up to 100, and their squares to those of the sizes, scaled. */
  lemma SharesAddUp(values: seq<real>)
    requires Sum(values) > 0.0
    ensures Sum(SharesOf(values)) == 100.0
    ensures Squares(SharesOf(values)) == Squares(values) * Square(100.0 / Sum(values))
  {
    SharesAreScaled(values, Sum(values));
    ScaledSum(values, 100.0 / Sum(values));
    ScaledSquares(values, 100.0 / Sum(values));
  }

  lemma QuotientsKeepSign(v: real, t: real)
    requires v >= 0.0 && t > 0.0
    ensures Share(v, t) >= 0.0
  {
  }

  /** Sizes that are not negative never raise an error, whatever their total. */
  lemma ValuesNeverThrow(values: seq<real>)
    requires NonNegative(values)
    ensures FromValues(values).Report? && FromValues(values).value.firms == |values|
  {
    SumIsNonNegative(values);
    if Sum(values) > 0.0 {
      SharesAddUp(values);
      forall i | 0 <= i < |values| ensures SharesOf(values)[i] >= 0.0 { QuotientsKeepSign(values[i], Sum(values)); }
    }
  }

  // ----- bounds -----

  lemma NegativeProduct(n: real, g: real)
    requires n > 0.0 && g < 0.0
    ensures n * g < 0.0
  {
  }

  lemma CauchyStep(n: real, q: real, s: real, x: real)
    requires n >= 1.0 && n * q >= s * s
    ensures (n + 1.0) * (q + x * x) >= (s + x) * (s + x)
  {
    var y := n * x;
    var g := q + y * x - 2.0 * (s * x);
    SquareIsNonNegative(s - y);
    assert (s - y) * (s - y) == s * s - 2.0 * (s * y) + y * y;
    assert n * (y * x) == y * y;
    assert n * (s * x) == s * y;
    assert n * g == n * q + n * (y * x) - 2.0 * (n * (s * x));
    if g < 0.0 {
      NegativeProduct(n, g);
      assert false;
    }
    assert (n + 1.0) * (q + x * x) == n * q + y * x + q + x * x;
    assert (s + x) * (s + x) == s * s + 2.0 * (s * x) + x * x;
  }

  /** The sum of squares is at least the square of the sum over the number. */
  lemma {:induction false} Cauchy(s: seq<real>)
    requires s != []
    ensures |s| as real * Squares(s) >= Sum(s) * Sum(s)
  {
    if |s| == 1 {
      assert s == [s[0]];
      SumsOfOne(Square, s[0]);
    } else {
      var front := s[..|s| - 1];
      Cauchy(front);
      CauchyStep(|front| as real, Squares(front), Sum(front), s[|s| - 1]);
    }
  }

  lemma SquareOfSum(a: real, b: real)
    requires a >= 0.0 && b >= 0.0
    ensures Square(a) + Square(b) <= Square(a + b)
  {
    ProductIsNonNegative(a, b);
    assert (a + b) * (a + b) == a * a + 2.0 * (a * b) + b * b;
  }

  /** The sum of squares of sizes is at most the square of their sum. */
  lemma {:induction false} SquaresAreBounded(s: seq<real>)
    requires NonNegative(s)
    ensures Squares(s) <= Square(Sum(s))
  {
    if s != [] {
      var front := s[..|s| - 1];
      SquaresAreBounded(front);
      SumIsNonNegative(front);
      SquareOfSum(Sum(front), s[|s| - 1]);
    }
  }

  lemma ProductIsNonNegative(a: real, b: real)
    requires a >= 0.0 && b >= 0.0
    ensures a * b >= 0.0
  {
  }

  lemma SharesAreNonNegative(values: seq<real>)
    requires NonNegative(values) && Sum(values) > 0.0
    ensures NonNegative(SharesOf(values))
  {
    forall i | 0 <= i < |values| ensures SharesOf(values)[i] >= 0.0 { QuotientsKeepSign(values[i], Sum(values)); }
  }

  lemma DivideBy(n: real, q: real, c: real)
    requires n >= 1.0 && n * q >= c
    ensures q >= c / n
  {
    var d := c / n;
    assert d * n == c;
    if q < d {
      assert n * q < n * d;
    }
  }

  lemma WholeSharesAreBounded(shares: seq<real>)
    requires shares != [] && NonNegative(shares) && Sum(shares) == 100.0
    ensures 10000.0 / |shares| as real <= Squares(shares) && Squares(shares) <= 10000.0
  {
    Cauchy(shares);
    SquaresAreBounded(shares);
    DivideBy(|shares| as real, Squares(shares), 10000.0);
  }

  /** The index of n firms lies between 10000 / n and 10000. */
  lemma IndexIsBounded(values: seq<real>)
    requires NonNegative(values) && Sum(values) > 0.0
    ensures values != [] && 10000.0 / |values| as real <= Squares(SharesOf(values)) && Squares(SharesOf(values)) <= 10000.0
  {
    SharesAddUp(values);
    SharesAreNonNegative(values);
    assert |SharesOf(values)| == |values|;
    WholeSharesAreBounded(SharesOf(values));
  }

  // ----- mergers -----

  function Without(s: seq<real>, j: nat): seq<real>
    requires j < |s|
  {
    s[..j] + s[j + 1..]
  }

  /** One firm is changed, a later one removed. */
  function Joined(values: seq<real>, i: nat, j: nat, v: real): seq<real>
    requires i < j < |values|
  {
    Without(values[i := v], j)
  }

  /** Firms i and j become one, in the place of i. */
  function Merged(values: seq<real>, i: nat, j: nat): seq<real>
    requires i < j < |values|
  {
    Joined(values, i, j, values[i] + values[j])
  }

  lemma {:induction false} SumsJoin(f: real -> real, a: seq<real>, b: seq<real>)
    ensures Sum(a + b) == Sum(a) + Sum(b) && SumOf(f, a + b) == SumOf(f, a) + SumOf(f, b)
  {
    if b == [] {
      assert a + b == a;
    } else {
      SumsJoin(f, a, b[..|b| - 1]);
      assert (a + b)[..|a + b| - 1] == a + b[..|b| - 1];
    }
  }

  lemma SumsOfOne(f: real -> real, x: real)
    ensures Sum([x]) == x && SumOf(f, [x]) == f(x)
  {
    assert [x][..0] == [];
  }

  lemma {:induction false} SumsAfterUpdate(f: real -> real, s: seq<real>, i: nat, v: real)
    requires i < |s|
    ensures Sum(s[i := v]) == Sum(s) - s[i] + v && SumOf(f, s[i := v]) == SumOf(f, s) - f(s[i]) + f(v)
  {
    var n := |s| - 1;
    if i == n {
      assert s[i := v][..n] == s[..n];
    } else {
      SumsAfterUpdate(f, s[..n], i, v);
      assert s[i := v][..n] == s[..n][i := v];
    }
  }

  lemma {:induction false} SumsWithout(f: real -> real, s: seq<real>, j: nat)
    requires j < |s|
    ensures Sum(Without(s, j)) == Sum(s) - s[j] && SumOf(f, Without(s, j)) == SumOf(f, s) - f(s[j])
  {
    var n := |s| - 1;
    if j == n {
      assert Without(s, j) == s[..n];
    } else {
      SumsWithout(f, s[..n], j);
      assert Without(s, j)[..n - 1] == Without(s[..n], j) && Without(s, j)[n - 1] == s[n];
    }
  }

  lemma TotalExchanged(values: seq<real>, i: nat, j: nat, v: real)
    requires i < j < |values|
    ensures Sum(Joined(values, i, j, v)) == Sum(values) - values[i] - values[j] + v
  {
    SumsAfterUpdate(Square, values, i, v);
    SumsWithout(Square, values[i := v], j);
    assert values[i := v][j] == values[j];
  }

  lemma JoinedKeepsTotal(values: seq<real>, i: nat, j: nat, v: real)
    requires i < j < |values| && v == values[i] + values[j]
    ensures Sum(Joined(values, i, j, v)) == Sum(values)
  {
    TotalExchanged(values, i, j, v);
  }

  lemma MergerKeepsTotal(values: seq<real>, i: nat, j: nat, merged: seq<real>, v: real)
    requires i < j < |values| && v == values[i] + values[j] && merged == Joined(values, i, j, v)
    ensures Sum(merged) == Sum(values)
  {
    JoinedKeepsTotal(values, i, j, v);
  }

  /** Removing one firm and changing another exchanges two terms for one. */
  lemma TermsExchanged(f: real -> real, values: seq<real>, i: nat, j: nat, v: real)
    requires i < j < |values|
    ensures SumOf(f, Joined(values, i, j, v)) == SumOf(f, values) - f(values[i]) - f(values[j]) + f(v)
  {
    SumsAfterUpdate(f, values, i, v);
    SumsWithout(f, values[i := v], j);
    assert values[i := v][j] == values[j];
  }

  lemma MergerKeepsSigns(values: seq<real>, i: nat, j: nat)
    requires i < j < |values| && NonNegative(values)
    ensures NonNegative(Merged(values, i, j))
  {
  }

  lemma ScalingIsMonotone(a: real, b: real, c: real)
    requires a <= b && c >= 0.0
    ensures a * c <= b * c
  {
    ProductIsNonNegative(b - a, c);
    Distribute(a, b - a, c);
  }

  lemma RoundingIsMonotone(a: real, b: real)
    requires a <= b
    ensures Rounded(a) <= Rounded(b)
  {
    assert (a * 100.0 + 0.5).Floor <= (b * 100.0 + 0.5).Floor;
  }

  lemma MergerRaisesSquares(values: seq<real>, i: nat, j: nat)
    requires i < j < |values| && NonNegative(values)
    ensures Squares(Merged(values, i, j)) >= Squares(values)
  {
    var x, y := values[i], values[j];
    TermsExchanged(Square, values, i, j, x + y);
    SquareOfSum(x, y);
  }

  lemma SquaresOfShares(values: seq<real>, t: real)
    requires t > 0.0
    ensures Squares(SharesOfTotal(values, t)) == Squares(values) * Square(100.0 / t)
  {
    SharesAreScaled(values, t);
    ScaledSquares(values, 100.0 / t);
  }

  lemma IndexGrowsWithSquares(a: seq<real>, b: seq<real>, t: real)
    requires t > 0.0 && Squares(a) <= Squares(b)
    ensures Squares(SharesOfTotal(a, t)) <= Squares(SharesOfTotal(b, t))
  {
    SquaresOfShares(a, t);
    SquaresOfShares(b, t);
    SquareIsNonNegative(100.0 / t);
    ScalingIsMonotone(Squares(a), Squares(b), Square(100.0 / t));
  }

  lemma MergerRaisesIndex(values: seq<real>, i: nat, j: nat)
    requires i < j < |values| && NonNegative(values) && Sum(values) > 0.0
    ensures Sum(Merged(values, i, j)) > 0.0 && NonNegative(Merged(values, i, j))
    ensures Squares(SharesOf(Merged(values, i, j))) >= Squares(SharesOf(values))
  {
    MergerKeepsTotal(values, i, j, Merged(values, i, j), values[i] + values[j]);
    MergerRaisesSquares(values, i, j);
    MergerKeepsSigns(values, i, j);
    IndexGrowsWithSquares(values, Merged(values, i, j), Sum(values));
  }

  predicate NotBelow(a: Tier, b: Tier) {
    a == b || b == Unconcentrated || a == HighlyConcentrated
  }

  /** Merging two firms never lowers the reported index, nor the tier. */
  lemma MergersNeverLowerTheIndex(values: seq<real>, i: nat, j: nat)
    requires i < j < |values| && NonNegative(values) && Sum(values) > 0.0
    ensures FromValues(values).Report? && FromValues(Merged(values, i, j)).Report?
    ensures var before, after := FromValues(values).value, FromValues(Merged(values, i, j)).value;
      after.hhi >= before.hhi && NotBelow(after.tier, before.tier) && after.firms == before.firms - 1
  {
    var merged := Merged(values, i, j);
    MergerRaisesIndex(values, i, j);
    ValuesNeverThrow(values);
    ValuesNeverThrow(merged);
    RoundingIsMonotone(Squares(SharesOf(values)), Squares(SharesOf(merged)));
  }

  // ----- the four-firm ratio -----

  /** A choice of firms by their places. */
  function Chosen(mask: seq<bool>): nat {
    if mask == [] then 0 else Chosen(mask[..|mask| - 1]) + if mask[|mask| - 1] then 1 else 0
  }

  function ChosenSum(s: seq<real>, mask: seq<bool>): real
    requires |mask| == |s|
  {
    if s == [] then 0.0
    else ChosenSum(s[..|s| - 1], mask[..|s| - 1]) + if mask[|s| - 1] then s[|s| - 1] else 0.0
  }

  function Best(s: seq<real>, k: nat): real { Sum(Take(Descending(s), k)) }

  lemma SumOfCons(x: real, s: seq<real>)
    ensures Sum([x] + s) == x + Sum(s)
  {
    SumsJoin(Square, [x], s);
    SumsOfOne(Square, x);
  }

  function Larger(a: real, b: real): real { if a >= b then a else b }

  lemma TakeOfCons(x: real, s: seq<real>, k: nat)
    ensures Sum(Take([x] + s, k + 1)) == x + Sum(Take(s, k))
  {
    SumOfCons(x, Take(s, k));
    assert Take([x] + s, k + 1) == [x] + Take(s, k);
  }

  lemma FirstOfSorted(s: seq<real>, k: nat)
    requires s != []
    ensures Sum(Take(s, k + 1)) == s[0] + Sum(Take(s[1..], k))
  {
    assert s == [s[0]] + s[1..];
    TakeOfCons(s[0], s[1..], k);
  }

  lemma InsertFirst(x: real, s: seq<real>, k: nat)
    requires InOrder(Falling, s) && NonNegative(s) && x >= 0.0 && (s == [] || x > s[0])
    ensures ChoosesBetter(x, s, [x] + s, k)
  {
    TakeOfCons(x, s, k);
    if s != [] {
      FirstOfSorted(s, k);
      TailIsSmaller(s, k);
    }
  }

  /** What the k best of a longer list are. */
  predicate ChoosesBetter(x: real, s: seq<real>, longer: seq<real>, k: nat) {
    Sum(Take(longer, k + 1)) == Larger(Sum(Take(s, k + 1)), x + Sum(Take(s, k)))
  }

  lemma BestSingle(h: real, s: seq<real>)
    ensures Sum(Take([h] + s, 1)) == h && Sum(Take(s, 0)) == 0.0
  {
    TakeOfCons(h, s, 0);
    assert Take(s, 0) == [];
  }

  /** The choice is the same with a firm in front that is chosen either way. */
  lemma ChoiceBehindFirst(x: real, h: real, tail: seq<real>, longer: seq<real>, k: nat)
    requires if k == 0 then x <= h else ChoosesBetter(x, tail, longer, k - 1)
    ensures ChoosesBetter(x, [h] + tail, [h] + longer, k)
  {
    if k == 0 {
      BestSingle(h, longer);
      BestSingle(h, tail);
      BestSingle(h, [h] + tail);
    } else {
      TakeOfCons(h, longer, k);
      TakeOfCons(h, tail, k);
      TakeOfCons(h, tail, k - 1);
    }
  }

  /** The k best after one more firm: those before, or the new one with the best k - 1 before. */
  lemma {:induction false} InsertChooses(x: real, s: seq<real>, k: nat)
    requires InOrder(Falling, s) && NonNegative(s) && x >= 0.0
    ensures ChoosesBetter(x, s, Insert(Falling, x, s), k)
    decreases |s|
  {
    if s == [] || x > s[0] {
      InsertFirst(x, s, k);
    } else {
      if k > 0 { InsertChooses(x, s[1..], k - 1); }
      assert s == [s[0]] + s[1..];
      ChoiceBehindFirst(x, s[0], s[1..], Insert(Falling, x, s[1..]), k);
    }
  }

  /** The k after the first are no larger than the first k. */
  lemma {:induction false} TailIsSmaller(s: seq<real>, k: nat)
    requires s != [] && InOrder(Falling, s) && NonNegative(s)
    ensures Sum(Take(s[1..], k)) <= Sum(Take(s, k))
    decreases |s|
  {
    if k > 0 && |s| > 1 {
      assert s == [s[0]] + s[1..] && s[1..] == [s[1]] + s[2..];
      TakeOfCons(s[0], s[1..], k - 1);
      TakeOfCons(s[1], s[2..], k - 1);
      TailIsSmaller(s[1..], k - 1);
      assert s[1..][1..] == s[2..];
    } else if k > 0 {
      assert s[1..] == [] && Take(s, k) == s;
      SumIsNonNegative(s);
    } else {
      assert Take(s, 0) == [] && Take(s[1..], 0) == [];
    }
  }

  lemma SortedAreNonNegative(s: seq<real>)
    requires NonNegative(s)
    ensures NonNegative(Descending(s)) && InOrder(Falling, Descending(s))
  {
    SortedIsInOrder(Falling, s);
    forall i | 0 <= i < |Descending(s)| ensures Descending(s)[i] >= 0.0 {
      assert Descending(s)[i] in Descending(s);
    }
  }

  lemma BestUnfolds(s: seq<real>, k: nat)
    requires NonNegative(s) && s != []
    ensures Best(s, k + 1) == Larger(Best(s[..|s| - 1], k + 1), s[|s| - 1] + Best(s[..|s| - 1], k))
    ensures Best(s, 0) == 0.0
  {
    SortedAreNonNegative(s[..|s| - 1]);
    InsertChooses(s[|s| - 1], Descending(s[..|s| - 1]), k);
    assert Take(Descending(s), 0) == [];
  }

  lemma NoneAreWorthNothing(s: seq<real>)
    ensures Best(s, 0) == 0.0
  {
    assert Take(Descending(s), 0) == [];
  }

  lemma {:induction false} NothingChosen(s: seq<real>, mask: seq<bool>)
    requires |mask| == |s| && Chosen(mask) == 0
    ensures ChosenSum(s, mask) == 0.0
  {
    if s != [] { NothingChosen(s[..|s| - 1], mask[..|s| - 1]); }
  }

  /** No choice of at most k firms has more than the k largest. */
  lemma {:induction false} ChoicesAreNoBetter(s: seq<real>, mask: seq<bool>, k: nat)
    requires NonNegative(s) && |mask| == |s| && Chosen(mask) <= k
    ensures ChosenSum(s, mask) <= Best(s, k)
    decreases |s|
  {
    if k == 0 {
      NoneAreWorthNothing(s);
      NothingChosen(s, mask);
    } else if s != [] {
      var front, mask' := s[..|s| - 1], mask[..|s| - 1];
      BestUnfolds(s, k - 1);
      if mask[|s| - 1] {
        ChoicesAreNoBetter(front, mask', k - 1);
      } else {
        ChoicesAreNoBetter(front, mask', k);
      }
    } else {
      assert Descending(s) == [];
    }
  }

  /** A choice of at most k firms that has as much as the k largest. */
  function BestChoice(s: seq<real>, k: nat): (mask: seq<bool>)
    ensures |mask| == |s|
  {
    if s == [] then []
    else if k == 0 then BestChoice(s[..|s| - 1], 0) + [false]
    else if Best(s[..|s| - 1], k) >= s[|s| - 1] + Best(s[..|s| - 1], k - 1) then BestChoice(s[..|s| - 1], k) + [false]
    else BestChoice(s[..|s| - 1], k - 1) + [true]
  }

  lemma ChosenSnoc(s: seq<real>, mask: seq<bool>, x: real, chosen: bool)
    requires |mask| == |s|
    ensures Chosen(mask + [chosen]) == Chosen(mask) + if chosen then 1 else 0
    ensures ChosenSum(s + [x], mask + [chosen]) == ChosenSum(s, mask) + if chosen then x else 0.0
  {
    assert (mask + [chosen])[..|mask|] == mask && (s + [x])[..|s|] == s;
  }

  /** Whether the last firm is among the k best. */
  predicate LastIsChosen(front: seq<real>, x: real, k: nat) { k > 0 && Best(front, k) < x + Best(front, k - 1) }

  lemma BestChoiceUnfolds(front: seq<real>, x: real, k: nat)
    ensures var chosen := LastIsChosen(front, x, k);
      BestChoice(front + [x], k) == BestChoice(front, if chosen then k - 1 else k) + [chosen]
  {
    assert (front + [x])[..|front|] == front;
  }

  lemma BestOfSnoc(front: seq<real>, x: real, k: nat)
    requires NonNegative(front + [x])
    ensures Best(front + [x], k) == if LastIsChosen(front, x, k) then x + Best(front, k - 1) else Best(front, k)
  {
    assert (front + [x])[..|front|] == front;
    if k > 0 {
      BestUnfolds(front + [x], k - 1);
    } else {
      NoneAreWorthNothing(front + [x]);
      NoneAreWorthNothing(front);
    }
  }

  lemma {:induction false} BestChoiceIsBest(s: seq<real>, k: nat)
    requires NonNegative(s)
    ensures Chosen(BestChoice(s, k)) <= k && ChosenSum(s, BestChoice(s, k)) == Best(s, k)
    decreases |s|
  {
    if s == [] {
      assert Descending(s) == [];
    } else {
      var front, x := s[..|s| - 1], s[|s| - 1];
      assert s == front + [x];
      var chosen := LastIsChosen(front, x, k);
      var m := if chosen then k - 1 else k;
      BestChoiceIsBest(front, m);
      BestChoiceUnfolds(front, x, k);
      BestOfSnoc(front, x, k);
      ChosenSnoc(front, BestChoice(front, m), x, chosen);
    }
  }

  /** The four-firm ratio is the largest share any at most four firms have together. */
  lemma Cr4IsTheBestOfFour(shares: seq<real>, mask: seq<bool>)
    requires NonNegative(shares) && |mask| == |shares| && Chosen(mask) <= 4
    ensures ChosenSum(shares, mask) <= Cr4(shares)
    ensures var best := BestChoice(shares, 4); Chosen(best) <= 4 && ChosenSum(shares, best) == Cr4(shares)
  {
    ChoicesAreNoBetter(shares, mask, 4);
    BestChoiceIsBest(shares, 4);
  }

  // ----- the report -----

  /** A figure is another rounded to hundredths: the nearest, and the larger of two that are as near. */
  ghost predicate IsHundredths(figure: real, x: real) {
    exists n: int :: IsNearest(n, x) && figure * 100.0 == n as real
  }

  predicate IsNearest(n: int, x: real) {
    n as real - 0.5 <= x * 100.0 < n as real + 0.5
  }

  lemma RoundedIsNearest(x: real)
    ensures IsHundredths(Rounded(x), x)
  {
    var n := (x * 100.0 + 0.5).Floor;
    assert IsNearest(n, x) && Rounded(x) * 100.0 == n as real;
  }

  lemma {:induction false} LargestIsAShare(shares: seq<real>)
    requires shares != [] && NonNegative(shares)
    ensures exists i :: 0 <= i < |shares| && shares[i] == Largest(shares)
    ensures forall i :: 0 <= i < |shares| ==> shares[i] <= Largest(shares)
  {
    var front := shares[..|shares| - 1];
    if front != [] {
      LargestIsAShare(front);
      var i :| 0 <= i < |front| && front[i] == Largest(front);
      assert shares[i] == Largest(front);
      assert forall k :: 0 <= k < |front| ==> shares[k] == front[k];
    }
  }

  /** Shares are rejected exactly when one is negative or they add up to more than 100.001 percent. */
  lemma RejectsExactly(shares: seq<real>)
    ensures FromShares(shares).OutOfRange? <==>
      shares != [] && ((exists i :: 0 <= i < |shares| && shares[i] < 0.0) || Sum(shares) > 100.001)
  {
  }

  /**
   What a report says of accepted shares: the sum of their squares, the largest and the four-firm ratio to hundredths, the
   index never above 10,000, and the tier by the index that is reported: above 2,500, from 1,500 on, or below.
   */
  lemma ReportsExactly(shares: seq<real>)
    requires shares != [] && FromShares(shares).Report?
    ensures var r := FromShares(shares).value;
      && r.firms == |shares| && r.hhi <= 10000.0
      && (IsHundredths(r.hhi, Squares(shares)) || (r.hhi == 10000.0 && Squares(shares) > 10000.0))
      && (r.tier == HighlyConcentrated <==> r.hhi > 2500.0)
      && (r.tier == ModeratelyConcentrated <==> 1500.0 <= r.hhi <= 2500.0)
      && (exists top :: top in shares && IsHundredths(r.topShare, top) && forall i :: 0 <= i < |shares| ==> shares[i] <= top)
      && r.cr4.Some? && IsHundredths(r.cr4.value, Cr4(shares))
  {
    var r := FromShares(shares).value;
    RoundedIsNearest(Squares(shares));
    RoundedIsNearest(Largest(shares));
    RoundedIsNearest(Cr4(shares));
    LargestIsAShare(shares);
    assert Largest(shares) in shares && IsHundredths(r.topShare, Largest(shares));
    if Rounded(Squares(shares)) > 10000.0 { LargeRounded(Squares(shares)); }
  }

  lemma LargeRounded(x: real)
    requires Rounded(x) > 10000.0
    ensures x > 10000.0
  {
    var n := (x * 100.0 + 0.5).Floor;
    assert n as real > 1000000.0;
  }
}
