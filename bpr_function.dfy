/**
 * The BPR volume-delay function of an edge, t0 * (1 + 0.15 * (x / c)^4),
 * with its first and second derivative, its antiderivative and its integral
 * from 0. Flow and cost are exact reals here; the graph is reduced to the
 * two per-edge attributes the function reads.
 */
module BprFunction {

  /** What the cost function reads of the graph: capacity and free-flow travel time, indexed by edge. */
  datatype Graph = Graph(capacity: seq<real>, freeTravelTime: seq<real>)

  /** `e` is an edge of `g` whose capacity is positive, so the cost function may divide by it. */
  predicate IsEdge(g: Graph, e: int)
  {
    0 <= e < |g.capacity| == |g.freeTravelTime| && g.capacity[e] > 0.0
  }

  /** What the graph guarantees for every edge: positive capacity and non-negative free-flow time. */
  predicate ValidEdge(g: Graph, e: int)
  {
    IsEdge(g, e) && g.freeTravelTime[e] >= 0.0
  }

  // ---------------------------------------------------------------------
  // The five operations
  // ---------------------------------------------------------------------

  /** `operator()`: the travel time on edge `e` under flow `x`. */
  function Cost(g: Graph, e: int, x: real): (r: real)
    requires IsEdge(g, e)
    ensures x == 0.0 ==> r == g.freeTravelTime[e]
    ensures g.freeTravelTime[e] >= 0.0 ==> r >= g.freeTravelTime[e]
  {
    Shapes(g.freeTravelTime[e], g.capacity[e], x);
    PolySigns(g.freeTravelTime[e], 1.0 / g.capacity[e], x);
    var tmp := x / g.capacity[e];
    g.freeTravelTime[e] * (1.0 + 0.15 * tmp * tmp * tmp * tmp)
  }

  /** `derivative`: the slope of the cost at `x`. */
  function Derivative(g: Graph, e: int, x: real): (r: real)
    requires IsEdge(g, e)
    ensures x == 0.0 ==> r == 0.0
    ensures g.freeTravelTime[e] >= 0.0 && x >= 0.0 ==> r >= 0.0
  {
    Shapes(g.freeTravelTime[e], g.capacity[e], x);
    PolySigns(g.freeTravelTime[e], 1.0 / g.capacity[e], x);
    var tmp := x / g.capacity[e];
    g.freeTravelTime[e] * 0.15 * 4.0 * tmp * tmp * tmp / g.capacity[e]
  }

  /** `secondDerivative`: the curvature of the cost at `x`, never negative. */
  function SecondDerivative(g: Graph, e: int, x: real): (r: real)
    requires IsEdge(g, e)
    ensures x == 0.0 ==> r == 0.0
    ensures g.freeTravelTime[e] >= 0.0 ==> r >= 0.0
  {
    Shapes(g.freeTravelTime[e], g.capacity[e], x);
    PolySigns(g.freeTravelTime[e], 1.0 / g.capacity[e], x);
    var tmp := x / g.capacity[e];
    g.freeTravelTime[e] * 0.15 * 4.0 * 3.0 * tmp * tmp / (g.capacity[e] * g.capacity[e])
  }

  /** `antiderivative`: the antiderivative of the cost that vanishes at 0. */
  function Antiderivative(g: Graph, e: int, x: real): (r: real)
    requires IsEdge(g, e)
    ensures x == 0.0 ==> r == 0.0
    ensures g.freeTravelTime[e] >= 0.0 && x >= 0.0 ==> r >= g.freeTravelTime[e] * x
  {
    Shapes(g.freeTravelTime[e], g.capacity[e], x);
    PolySigns(g.freeTravelTime[e], 1.0 / g.capacity[e], x);
    var tmp := x / g.capacity[e];
    g.freeTravelTime[e] * (x + 0.15 * x * tmp * tmp * tmp * tmp / (4.0 + 1.0))
  }

  /** `integral`: the integral of the cost from 0 to `b`. */
  function Integral(g: Graph, e: int, b: real): (r: real)
    requires IsEdge(g, e)
    ensures r == Antiderivative(g, e, b)
    ensures b == 0.0 ==> r == 0.0
  {
    Antiderivative(g, e, b) - Antiderivative(g, e, 0.0)
  }

  /** The third derivative of the cost; not an operation of its own, it states the expansions below. */
  ghost function ThirdDerivative(g: Graph, e: int, x: real): real
    requires IsEdge(g, e)
  {
    var tmp := x / g.capacity[e];
    g.freeTravelTime[e] * 0.15 * 4.0 * 3.0 * 2.0 * tmp / (g.capacity[e] * g.capacity[e] * g.capacity[e])
  }

  /** The fourth derivative of the cost, which no longer depends on the flow. */
  ghost function FourthDerivative(g: Graph, e: int): real
    requires IsEdge(g, e)
  {
    g.freeTravelTime[e] * 0.15 * 4.0 * 3.0 * 2.0 / (g.capacity[e] * g.capacity[e] * g.capacity[e] * g.capacity[e])
  }

  // ---------------------------------------------------------------------
  // Properties of the five operations
  // ---------------------------------------------------------------------

  /** At capacity the travel time is 15% above free flow. */
  lemma CostAtCapacity(g: Graph, e: int)
    requires IsEdge(g, e)
    ensures Cost(g, e, g.capacity[e]) == 1.15 * g.freeTravelTime[e]
  {
    var c := g.capacity[e];
    assert c / c == 1.0;
  }

  /** The cost never decreases with the flow, and strictly increases when the free-flow time is positive. */
  lemma CostMonotone(g: Graph, e: int, x1: real, x2: real)
    requires ValidEdge(g, e)
    requires 0.0 <= x1 <= x2
    ensures Cost(g, e, x1) <= Cost(g, e, x2)
    ensures g.freeTravelTime[e] > 0.0 && x1 < x2 ==> Cost(g, e, x1) < Cost(g, e, x2)
  {
    ClosedForms(g, e, x1);
    ClosedForms(g, e, x2);
    CostPolyMonotone(g.freeTravelTime[e], 1.0 / g.capacity[e], x1, x2);
  }

  /**
   * The derivative never decreases with the flow either, and strictly
   * increases when the free-flow time is positive: the cost is convex on
   * non-negative flows, strictly so for a positive free-flow time.
   */
  lemma DerivativeMonotone(g: Graph, e: int, x1: real, x2: real)
    requires ValidEdge(g, e)
    requires 0.0 <= x1 <= x2
    ensures Derivative(g, e, x1) <= Derivative(g, e, x2)
    ensures g.freeTravelTime[e] > 0.0 && x1 < x2 ==> Derivative(g, e, x1) < Derivative(g, e, x2)
  {
    ClosedForms(g, e, x1);
    ClosedForms(g, e, x2);
    DerivativePolyMonotone(g.freeTravelTime[e], 1.0 / g.capacity[e], x1, x2);
  }

  /** With a positive free-flow time the curvature is positive at every non-zero flow: the cost is strictly convex. */
  lemma SecondDerivativePositive(g: Graph, e: int, x: real)
    requires IsEdge(g, e)
    requires g.freeTravelTime[e] > 0.0 && x != 0.0
    ensures SecondDerivative(g, e, x) > 0.0
  {
    ClosedForms(g, e, x);
    SecondDerivativePolyPositive(g.freeTravelTime[e], 1.0 / g.capacity[e], x);
  }

  /** Flow times slope is four times the congestion penalty, the signature of a fourth power. */
  lemma CostDerivativeLink(g: Graph, e: int, x: real)
    requires IsEdge(g, e)
    ensures x * Derivative(g, e, x) == 4.0 * (Cost(g, e, x) - g.freeTravelTime[e])
  {
    ClosedForms(g, e, x);
    PolyLinks(g.freeTravelTime[e], 1.0 / g.capacity[e], x);
  }

  /** The antiderivative is t0 * x plus a fifth of x times the congestion penalty. */
  lemma AntiderivativeCostLink(g: Graph, e: int, x: real)
    requires IsEdge(g, e)
    ensures Antiderivative(g, e, x) == g.freeTravelTime[e] * x + x * (Cost(g, e, x) - g.freeTravelTime[e]) / 5.0
  {
    var t0, u := g.freeTravelTime[e], 1.0 / g.capacity[e];
    ClosedForms(g, e, x);
    PolyLinks(t0, u, x);
    var cost := Cost(g, e, x);
    assert cost == CostPoly(t0, u, x);
    assert Antiderivative(g, e, x) == t0 * x + x * (cost - t0) / 5.0;
  }

  /**
   * The exact expansion of the cost around `x`. Its coefficients are the
   * derivative, the second derivative and so on, so `Derivative` and
   * `SecondDerivative` are the true first and second derivatives of `Cost`.
   */
  lemma CostExpansion(g: Graph, e: int, x: real, h: real)
    requires IsEdge(g, e)
    ensures Cost(g, e, x + h)
         == Taylor4(h, Cost(g, e, x), Derivative(g, e, x), SecondDerivative(g, e, x),
                    ThirdDerivative(g, e, x), FourthDerivative(g, e))
  {
    ClosedForms(g, e, x);
    ClosedForms(g, e, x + h);
    CostPolyExpansion(g.freeTravelTime[e], 1.0 / g.capacity[e], x, h);
  }

  /** The exact expansion of the derivative around `x`: `SecondDerivative` is its derivative. */
  lemma DerivativeExpansion(g: Graph, e: int, x: real, h: real)
    requires IsEdge(g, e)
    ensures Derivative(g, e, x + h)
         == Taylor4(h, Derivative(g, e, x), SecondDerivative(g, e, x), ThirdDerivative(g, e, x),
                    FourthDerivative(g, e), 0.0)
  {
    ClosedForms(g, e, x);
    ClosedForms(g, e, x + h);
    DerivativePolyExpansion(g.freeTravelTime[e], 1.0 / g.capacity[e], x, h);
  }

  /** The exact expansion of the antiderivative around `x`: `Cost` is its derivative. */
  lemma AntiderivativeExpansion(g: Graph, e: int, x: real, h: real)
    requires IsEdge(g, e)
    ensures Antiderivative(g, e, x + h)
         == Taylor5(h, Antiderivative(g, e, x), Cost(g, e, x), Derivative(g, e, x),
                    SecondDerivative(g, e, x), ThirdDerivative(g, e, x), FourthDerivative(g, e))
  {
    ClosedForms(g, e, x);
    ClosedForms(g, e, x + h);
    AntiderivativePolyExpansion(g.freeTravelTime[e], 1.0 / g.capacity[e], x, h);
  }

  /**
   * Over any step [a, a + h] of non-negative flows the integral lies between
   * the rectangles under the cost at a and at a + h.
   */
  lemma IntegralBetweenRectangles(g: Graph, e: int, a: real, h: real)
    requires ValidEdge(g, e)
    requires 0.0 <= a && 0.0 <= h
    ensures h * Cost(g, e, a) <= Integral(g, e, a + h) - Integral(g, e, a) <= h * Cost(g, e, a + h)
  {
    ClosedForms(g, e, a);
    ClosedForms(g, e, a + h);
    PolyRectangles(g.freeTravelTime[e], 1.0 / g.capacity[e], a, h);
  }

  // ---------------------------------------------------------------------
  // Riemann sums over n equal steps of width h starting at a
  // ---------------------------------------------------------------------

  /** The cost of edge `e` as a curve over the flow. */
  ghost function CostCurve(g: Graph, e: int): real -> real
    requires IsEdge(g, e)
  {
    x => Cost(g, e, x)
  }

  /** The integral of the cost of edge `e` as a curve over the flow. */
  ghost function IntegralCurve(g: Graph, e: int): real -> real
    requires IsEdge(g, e)
  {
    x => Integral(g, e, x)
  }

  /** The lower Riemann sum of `f`: each step priced at its left end. */
  ghost function LeftSum(f: real -> real, a: real, h: real, n: nat): real
    decreases n
  {
    if n == 0 then 0.0 else h * f(a) + LeftSum(f, a + h, h, n - 1)
  }

  /** The upper Riemann sum of `f`: each step priced at its right end. */
  ghost function RightSum(f: real -> real, a: real, h: real, n: nat): real
    decreases n
  {
    if n == 0 then 0.0 else h * f(a + h) + RightSum(f, a + h, h, n - 1)
  }

  /** The right end of `n` steps of width `h` from `a`. */
  ghost function StepEnd(a: real, h: real, n: nat): real
  {
    a + (n as real) * h
  }

  lemma StepEndShift(a: real, h: real, n: nat)
    requires n > 0
    ensures StepEnd(a + h, h, n - 1) == StepEnd(a, h, n)
  {
  }

  /** The rise of `bigF` over [x, x + h] lies between the rectangles of width `h` under `f` at x and at x + h. */
  ghost predicate StepBetweenRectangles(f: real -> real, bigF: real -> real, x: real, h: real)
  {
    h * f(x) <= bigF(x + h) - bigF(x) <= h * f(x + h)
  }

  /** If every step of `bigF` lies between the rectangles under `f`, so does every run of `n` steps. */
  lemma {:induction false} SumsBound(f: real -> real, bigF: real -> real, a: real, h: real, n: nat)
    requires 0.0 <= a && 0.0 <= h
    requires forall x :: 0.0 <= x ==> StepBetweenRectangles(f, bigF, x, h)
    ensures LeftSum(f, a, h, n) <= bigF(StepEnd(a, h, n)) - bigF(a) <= RightSum(f, a, h, n)
    decreases n
  {
    if n > 0 {
      assert StepBetweenRectangles(f, bigF, a, h);
      SumsBound(f, bigF, a + h, h, n - 1);
      StepEndShift(a, h, n);
    }
  }

  /** The two sums of any `f` differ by h times its rise over the whole range. */
  lemma {:induction false} SumsGap(f: real -> real, a: real, h: real, n: nat)
    ensures RightSum(f, a, h, n) - LeftSum(f, a, h, n) == h * f(StepEnd(a, h, n)) - h * f(a)
    decreases n
  {
    if n > 0 {
      SumsGap(f, a + h, h, n - 1);
      StepEndShift(a, h, n);
    }
  }

  /**
   * `Integral` is the integral of the cost: over any uniform partition of
   * non-negative flows it lies between the lower and the upper Riemann sum.
   */
  lemma IntegralBetweenRiemannSums(g: Graph, e: int, a: real, h: real, n: nat)
    requires ValidEdge(g, e)
    requires 0.0 <= a && 0.0 <= h
    ensures LeftSum(CostCurve(g, e), a, h, n) <= Integral(g, e, StepEnd(a, h, n)) - Integral(g, e, a)
    ensures Integral(g, e, StepEnd(a, h, n)) - Integral(g, e, a) <= RightSum(CostCurve(g, e), a, h, n)
  {
    var f, bigF := CostCurve(g, e), IntegralCurve(g, e);
    forall x | 0.0 <= x
      ensures StepBetweenRectangles(f, bigF, x, h)
    {
      IntegralBetweenRectangles(g, e, x, h);
    }
    SumsBound(f, bigF, a, h, n);
  }

  /**
   * The two sums differ by h times the rise of the cost over the whole
   * range, so both tend to the integral as the steps get finer.
   */
  lemma RiemannSumsGap(g: Graph, e: int, a: real, h: real, n: nat)
    requires IsEdge(g, e)
    ensures RightSum(CostCurve(g, e), a, h, n) - LeftSum(CostCurve(g, e), a, h, n)
         == h * Cost(g, e, StepEnd(a, h, n)) - h * Cost(g, e, a)
  {
    SumsGap(CostCurve(g, e), a, h, n);
  }

  /** An edge with free-flow time 10 and capacity 100. */
  lemma ExampleEdge()
    ensures var g := Graph([100.0], [10.0]);
      && Cost(g, 0, 100.0) == 11.5
      && Cost(g, 0, 0.0) == 10.0
      && Derivative(g, 0, 0.0) == 0.0
      && SecondDerivative(g, 0, 0.0) == 0.0
      && Integral(g, 0, 0.0) == 0.0
  {
    CostAtCapacity(Graph([100.0], [10.0]), 0);
  }

  // ---------------------------------------------------------------------
  // Closed forms: each operation as a polynomial in x and u = 1 / capacity
  // ---------------------------------------------------------------------

  ghost function CostPoly(t0: real, u: real, x: real): real
  {
    t0 * (1.0 + 0.15 * (x * u) * (x * u) * (x * u) * (x * u))
  }

  ghost function DerivativePoly(t0: real, u: real, x: real): real
  {
    t0 * 0.15 * 4.0 * (x * u) * (x * u) * (x * u) * u
  }

  ghost function SecondDerivativePoly(t0: real, u: real, x: real): real
  {
    t0 * 0.15 * 4.0 * 3.0 * (x * u) * (x * u) * u * u
  }

  ghost function ThirdDerivativePoly(t0: real, u: real, x: real): real
  {
    t0 * 0.15 * 4.0 * 3.0 * 2.0 * (x * u) * u * u * u
  }

  ghost function FourthDerivativePoly(t0: real, u: real): real
  {
    t0 * 0.15 * 4.0 * 3.0 * 2.0 * u * u * u * u
  }

  ghost function AntiderivativePoly(t0: real, u: real, x: real): real
  {
    t0 * (x + 0.15 * x * (x * u) * (x * u) * (x * u) * (x * u) / 5.0)
  }

  /** The Taylor polynomial of degree 4 with coefficients `a0`..`a4` (the derivatives at the centre), at offset `h`. */
  ghost function Taylor4(h: real, a0: real, a1: real, a2: real, a3: real, a4: real): real
  {
    a0 + h * a1 + h * h / 2.0 * a2 + h * h * h / 6.0 * a3 + h * h * h * h / 24.0 * a4
  }

  /** The Taylor polynomial of degree 5 with coefficients `a0`..`a5`, at offset `h`. */
  ghost function Taylor5(h: real, a0: real, a1: real, a2: real, a3: real, a4: real, a5: real): real
  {
    a0 + h * a1 + h * h / 2.0 * a2 + h * h * h / 6.0 * a3 + h * h * h * h / 24.0 * a4 + h * h * h * h * h / 120.0 * a5
  }

  /** Each operation's expression, with `x / c` and every division by `c` turned into a product with `1 / c`. */
  lemma Shapes(t0: real, c: real, x: real)
    requires c > 0.0
    ensures t0 * (1.0 + 0.15 * (x / c) * (x / c) * (x / c) * (x / c)) == CostPoly(t0, 1.0 / c, x)
    ensures t0 * 0.15 * 4.0 * (x / c) * (x / c) * (x / c) / c == DerivativePoly(t0, 1.0 / c, x)
    ensures t0 * 0.15 * 4.0 * 3.0 * (x / c) * (x / c) / (c * c) == SecondDerivativePoly(t0, 1.0 / c, x)
    ensures t0 * 0.15 * 4.0 * 3.0 * 2.0 * (x / c) / (c * c * c) == ThirdDerivativePoly(t0, 1.0 / c, x)
    ensures t0 * 0.15 * 4.0 * 3.0 * 2.0 / (c * c * c * c) == FourthDerivativePoly(t0, 1.0 / c)
    ensures t0 * (x + 0.15 * x * (x / c) * (x / c) * (x / c) * (x / c) / (4.0 + 1.0)) == AntiderivativePoly(t0, 1.0 / c, x)
  {
  }

  lemma ClosedForms(g: Graph, e: int, x: real)
    requires IsEdge(g, e)
    ensures Cost(g, e, x) == CostPoly(g.freeTravelTime[e], 1.0 / g.capacity[e], x)
    ensures Derivative(g, e, x) == DerivativePoly(g.freeTravelTime[e], 1.0 / g.capacity[e], x)
    ensures SecondDerivative(g, e, x) == SecondDerivativePoly(g.freeTravelTime[e], 1.0 / g.capacity[e], x)
    ensures ThirdDerivative(g, e, x) == ThirdDerivativePoly(g.freeTravelTime[e], 1.0 / g.capacity[e], x)
    ensures FourthDerivative(g, e) == FourthDerivativePoly(g.freeTravelTime[e], 1.0 / g.capacity[e])
    ensures Antiderivative(g, e, x) == AntiderivativePoly(g.freeTravelTime[e], 1.0 / g.capacity[e], x)
    ensures 1.0 / g.capacity[e] > 0.0
  {
    Shapes(g.freeTravelTime[e], g.capacity[e], x);
  }

  lemma PolySigns(t0: real, u: real, x: real)
    requires u > 0.0
    ensures t0 >= 0.0 ==> CostPoly(t0, u, x) >= t0
    ensures t0 >= 0.0 && x >= 0.0 ==> DerivativePoly(t0, u, x) >= 0.0
    ensures t0 >= 0.0 ==> SecondDerivativePoly(t0, u, x) >= 0.0
    ensures t0 >= 0.0 && x >= 0.0 ==> AntiderivativePoly(t0, u, x) >= t0 * x
    ensures x == 0.0 ==> CostPoly(t0, u, x) == t0 && DerivativePoly(t0, u, x) == 0.0
    ensures x == 0.0 ==> SecondDerivativePoly(t0, u, x) == 0.0 && AntiderivativePoly(t0, u, x) == 0.0
  {
    EvenPowersNonNegative(x * u);
    OddPowersKeepSign(x * u);
    if t0 >= 0.0 {
      ScaleNonNegative(t0, 1.0, 1.0 + 0.15 * (x * u) * (x * u) * (x * u) * (x * u));
      ScaleNonNegative(t0 * 1.8, 0.0, (x * u) * (x * u) * (u * u));
      if x >= 0.0 {
        ScaleNonNegative(t0 * 0.6 * u, 0.0, (x * u) * (x * u) * (x * u));
        ScaleNonNegative(t0, x, x + 0.03 * x * (x * u) * (x * u) * (x * u) * (x * u));
      }
    }
  }

  /** The curvature is strictly positive away from zero flow when t0 is positive. */
  lemma SecondDerivativePolyPositive(t0: real, u: real, x: real)
    requires u > 0.0
    ensures t0 > 0.0 && x != 0.0 ==> SecondDerivativePoly(t0, u, x) > 0.0
  {
    if t0 > 0.0 && x != 0.0 {
      var p := x * u;
      NonZeroSquarePositive(p);
      NonZeroSquarePositive(u);
      assert SecondDerivativePoly(t0, u, x) == (t0 * 1.8) * ((p * p) * (u * u));
    }
  }

  lemma CostPolyMonotone(t0: real, u: real, x1: real, x2: real)
    requires t0 >= 0.0 && u > 0.0 && 0.0 <= x1 <= x2
    ensures CostPoly(t0, u, x1) <= CostPoly(t0, u, x2)
    ensures t0 > 0.0 && x1 < x2 ==> CostPoly(t0, u, x1) < CostPoly(t0, u, x2)
  {
    ScaleNonNegative(u, x1, x2);
    PowersMonotone(x1 * u, x2 * u);
    ScaleNonNegative(t0, 1.0 + 0.15 * (x1 * u) * (x1 * u) * (x1 * u) * (x1 * u),
                         1.0 + 0.15 * (x2 * u) * (x2 * u) * (x2 * u) * (x2 * u));
  }

  lemma DerivativePolyMonotone(t0: real, u: real, x1: real, x2: real)
    requires t0 >= 0.0 && u > 0.0 && 0.0 <= x1 <= x2
    ensures DerivativePoly(t0, u, x1) <= DerivativePoly(t0, u, x2)
    ensures t0 > 0.0 && x1 < x2 ==> DerivativePoly(t0, u, x1) < DerivativePoly(t0, u, x2)
  {
    var p, q := x1 * u, x2 * u;
    ScaleNonNegative(u, x1, x2);
    assert p * p * p <= p * p * q <= p * q * q <= q * q * q;
    if x1 < x2 {
      assert u * x1 < u * x2;
      NonZeroSquarePositive(q);
      ScaleNonNegative(q * q, p, q);
      assert p * q * q < q * q * q;
    }
    ScaleNonNegative(0.6 * t0 * u, p * p * p, q * q * q);
  }

  lemma PolyLinks(t0: real, u: real, x: real)
    ensures x * DerivativePoly(t0, u, x) == 4.0 * (CostPoly(t0, u, x) - t0)
    ensures AntiderivativePoly(t0, u, x) == t0 * x + x * (CostPoly(t0, u, x) - t0) / 5.0
  {
  }

  lemma CostPolyExpansion(t0: real, u: real, x: real, h: real)
    ensures CostPoly(t0, u, x + h)
         == Taylor4(h, CostPoly(t0, u, x), DerivativePoly(t0, u, x), SecondDerivativePoly(t0, u, x),
                    ThirdDerivativePoly(t0, u, x), FourthDerivativePoly(t0, u))
  {
  }

  lemma DerivativePolyExpansion(t0: real, u: real, x: real, h: real)
    ensures DerivativePoly(t0, u, x + h)
         == Taylor4(h, DerivativePoly(t0, u, x), SecondDerivativePoly(t0, u, x), ThirdDerivativePoly(t0, u, x),
                    FourthDerivativePoly(t0, u), 0.0)
  {
  }

  lemma AntiderivativePolyExpansion(t0: real, u: real, x: real, h: real)
    ensures AntiderivativePoly(t0, u, x + h)
         == Taylor5(h, AntiderivativePoly(t0, u, x), CostPoly(t0, u, x), DerivativePoly(t0, u, x),
                    SecondDerivativePoly(t0, u, x), ThirdDerivativePoly(t0, u, x), FourthDerivativePoly(t0, u))
  {
  }

  lemma PolyRectangles(t0: real, u: real, a: real, h: real)
    requires t0 >= 0.0 && u > 0.0 && 0.0 <= a && 0.0 <= h
    ensures h * CostPoly(t0, u, a) <= AntiderivativePoly(t0, u, a + h) - AntiderivativePoly(t0, u, a)
    ensures AntiderivativePoly(t0, u, a + h) - AntiderivativePoly(t0, u, a) <= h * CostPoly(t0, u, a + h)
  {
    var b := a + h;
    FifthPowerStep(a, h);
    EvenPowersNonNegative(u);
    ScaleNonNegative(t0, 0.0, u * u * u * u);
    ScaleNonNegative(0.03 * t0 * (u * u * u * u), 5.0 * (a * a * a * a) * h, b * b * b * b * b - a * a * a * a * a);
    ScaleNonNegative(0.03 * t0 * (u * u * u * u), b * b * b * b * b - a * a * a * a * a, 5.0 * (b * b * b * b) * h);
  }

  // ---------------------------------------------------------------------
  // Small facts about products and powers of reals
  // ---------------------------------------------------------------------

  lemma EvenPowersNonNegative(y: real)
    ensures y * y >= 0.0
    ensures y * y * y * y >= 0.0
  {
    assert y * y * y * y == (y * y) * (y * y);
  }

  lemma NonZeroSquarePositive(y: real)
    requires y != 0.0
    ensures y * y > 0.0
  {
  }

  lemma OddPowersKeepSign(y: real)
    ensures y >= 0.0 ==> y * y * y >= 0.0
  {
    EvenPowersNonNegative(y);
  }

  /** Powers of non-negative reals are monotone, strictly so for a strict step. */
  lemma PowersMonotone(p: real, q: real)
    requires 0.0 <= p <= q
    ensures p * p * p * p <= q * q * q * q
    ensures p < q ==> p * p * p * p < q * q * q * q
  {
    assert p * p <= p * q <= q * q;
    assert p * p * p <= p * p * q <= q * q * q;
    assert p * p * p * p <= p * p * p * q <= q * q * q * q;
    if p < q {
      assert p * p * p * q < q * q * q * q;
    }
  }

  /** Scaling by a non-negative factor keeps an inequality. */
  lemma ScaleNonNegative(k: real, lo: real, hi: real)
    requires k >= 0.0 && lo <= hi
    ensures k * lo <= k * hi
    ensures k > 0.0 && lo < hi ==> k * lo < k * hi
  {
  }

  /** (p + d)^5 - p^5 lies between 5 p^4 d and 5 (p + d)^4 d when p and d are non-negative. */
  lemma FifthPowerStep(p: real, d: real)
    requires 0.0 <= p && 0.0 <= d
    ensures 5.0 * (p * p * p * p) * d <= (p + d) * (p + d) * (p + d) * (p + d) * (p + d) - p * p * p * p * p
    ensures (p + d) * (p + d) * (p + d) * (p + d) * (p + d) - p * p * p * p * p <= 5.0 * ((p + d) * (p + d) * (p + d) * (p + d)) * d
  {
    FifthPowerDifference(p, p + d);
  }

  /** r^5 - p^5 lies between 5 p^4 (r - p) and 5 r^4 (r - p) when 0 <= p <= r. */
  lemma FifthPowerDifference(p: real, r: real)
    requires 0.0 <= p <= r
    ensures 5.0 * (p * p * p * p) * (r - p) <= r * r * r * r * r - p * p * p * p * p
    ensures r * r * r * r * r - p * p * p * p * p <= 5.0 * (r * r * r * r) * (r - p)
  {
    var r4, r3p, r2p2, rp3, p4 := r * r * r * r, r * r * r * p, r * r * p * p, r * p * p * p, p * p * p * p;
    var s := r4 + r3p + r2p2 + rp3 + p4;
    assert r * r * r * r * r - p * p * p * p * p == (r - p) * s;
    assert p * p <= p * r <= r * r;
    assert p * p * p <= p * p * r <= p * r * r <= r * r * r;
    assert p4 <= rp3 <= r2p2 <= r3p <= r4;
    assert 5.0 * p4 <= s <= 5.0 * r4;
    ScaleNonNegative(r - p, 5.0 * p4, s);
    ScaleNonNegative(r - p, s, 5.0 * r4);
  }
}
