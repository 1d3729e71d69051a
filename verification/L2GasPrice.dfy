/**
 The L2 base gas price: an EIP-1559 style update in u128 arithmetic.  The build checks unsigned
 overflow, so an addition that leaves u128 stops the computation; `Next` is then `None`.
 */
module L2GasPrice {
  import opened Common

  const HALF: nat := 0x8000_0000_0000_0000_0000_0000_0000_0000
  const BELOW_MIN_DENOMINATOR: nat := 333

  datatype Constants = Constants(denominator: nat, target: nat, maxBlock: nat, minPrice: nat)

  const PRE_0_14_1 := Constants(48, 3_200_000_000, 4_000_000_000, 3_000_000_000)
  const POST_0_14_1 := Constants(48, 4_000_000_000, 5_000_000_000, 8_000_000_000)

  /** What both sets of constants satisfy: a full block uses at most twice the target. */
  predicate Sane(c: Constants) {
    c.denominator >= 2 && c.target >= 1 && 2 <= c.target * c.denominator < U128 && c.maxBlock <= 2 * c.target
  }

  function ForVersion(atLeast0141: bool): (c: Constants)
    ensures Sane(c) && c.denominator == 48 && BELOW_MIN_DENOMINATOR <= c.minPrice < HALF
  {
    if atLeast0141 then POST_0_14_1 else PRE_0_14_1
  }

  function Max(a: nat, b: nat): nat {
    if a >= b then a else b
  }

  function AbsDiff(a: nat, b: nat): nat {
    if a >= b then a - b else b - a
  }

  function Checked(n: nat): Option<nat> {
    if n < U128 then Some(n) else None
  }

  // ----- the formula -----------------------------------------------------------------------

  /** The largest change, used when the product does not fit. */
  function Fallback(c: Constants, price: nat, used: nat, min: nat): nat
    requires c.denominator >= 1
  {
    var change := price / c.denominator;
    if used > c.target then Min(price + change, U128 - 1)
    else Max(if change <= price then price - change else 0, min)
  }

  function Change(c: Constants, price: nat, delta: nat): nat
    requires c.target * c.denominator >= 1
  {
    price * delta / (c.target * c.denominator)
  }

  /** `calculate_next_base_gas_price`. */
  function Next(c: Constants, price: nat, used: nat, min: nat): Option<nat>
    requires Sane(c)
  {
    if price < min then
      match Checked(price + price / BELOW_MIN_DENOMINATOR)
      case None => None
      case Some(adjusted) => Some(Min(adjusted, min))
    else
      var delta := AbsDiff(used, c.target);
      if price * delta >= U128 then Some(Fallback(c, price, used, min))
      else
        var change := Change(c, price, delta);
        if used > c.target then
          match Checked(price + change)
          case None => None
          case Some(adjusted) => Some(Max(adjusted, min))
        else if change <= price then Some(Max(price - change, min))
        else None
  }

  // ----- arithmetic ------------------------------------------------------------------------

  lemma DivBelow(n: nat, d: nat)
    requires d >= 1
    ensures n / d * d <= n < n / d * d + d
  {
  }

  /** q * d <= n exactly when q <= n / d. */
  lemma QuotientAtLeast(q: nat, d: nat, n: nat)
    requires d >= 1 && d * q <= n
    ensures q <= n / d
  {
    DivBelow(n, d);
    if q > n / d {
      MulMono(d, n / d + 1, q);
    }
  }

  lemma DivMono(a: nat, b: nat, d: nat)
    requires d >= 1 && a <= b
    ensures a / d <= b / d
  {
    DivBelow(a, d);
    QuotientAtLeast(a / d, d, b);
  }

  lemma CancelLeft(t: nat, a: nat, b: nat)
    requires t >= 1 && t * a <= t * b
    ensures a <= b
  {
    if a > b {
      MulMono(t, b + 1, a);
    }
  }

  /** A delta of at most the target moves the price by at most price / denominator. */
  lemma ChangeBound(c: Constants, price: nat, delta: nat)
    requires Sane(c) && delta <= c.target
    ensures Change(c, price, delta) <= price / c.denominator
  {
    var q := Change(c, price, delta);
    DivBelow(price * delta, c.target * c.denominator);
    MulMono(price, delta, c.target);
    assert c.target * (c.denominator * q) <= c.target * price by {
      MulAssociative(c.target, c.denominator, q);
    }
    CancelLeft(c.target, c.denominator * q, price);
    QuotientAtLeast(q, c.denominator, price);
  }

  lemma ChangeMono(c: Constants, price: nat, d1: nat, d2: nat)
    requires Sane(c) && d1 <= d2
    ensures price * d1 <= price * d2
    ensures Change(c, price, d1) <= Change(c, price, d2)
  {
    MulMono(price, d1, d2);
    DivMono(price * d1, price * d2, c.target * c.denominator);
  }

  lemma QuotientShrinks(n: nat, d: nat)
    requires d >= 1
    ensures n / d <= n
  {
    DivBelow(n, d);
    MulMono(n / d, 1, d);
  }

  lemma Halves(n: nat, d: nat)
    requires d >= 2
    ensures 2 * (n / d) <= n
  {
    DivBelow(n, d);
    MulMono(n / d, 2, d);
  }

  // ----- when the arithmetic leaves u128 ---------------------------------------------------

  /** The only additions that can leave u128: a huge price below a huge minimum, or a block exactly
      one unit above the target at a price within 1 / (target * denominator) of the top. */
  predicate Overflows(c: Constants, price: nat, used: nat, min: nat)
    requires Sane(c)
  {
    if price < min then price + price / BELOW_MIN_DENOMINATOR >= U128
    else used == c.target + 1 && price + price / (c.target * c.denominator) >= U128
  }

  lemma SmallIncrease(c: Constants, price: nat, delta: nat)
    requires Sane(c) && delta >= 2 && price * delta < U128
    ensures price + Change(c, price, delta) < U128
  {
    MulMono(price, 2, delta);
    Halves(price * delta, c.target * c.denominator);
  }

  lemma DecreaseFits(c: Constants, price: nat, delta: nat)
    requires Sane(c) && delta <= c.target
    ensures Change(c, price, delta) <= price
  {
    ChangeBound(c, price, delta);
    QuotientShrinks(price, c.denominator);
  }

  /** For every u128 price and gas used, the update overflows exactly in the cases above. */
  lemma OverflowsExactly(c: Constants, price: nat, used: nat, min: nat)
    requires Sane(c) && price < U128
    ensures Next(c, price, used, min) == None <==> Overflows(c, price, used, min)
  {
    if price >= min {
      if used <= c.target {
        DecreaseFits(c, price, AbsDiff(used, c.target));
      } else if used >= c.target + 2 && price * AbsDiff(used, c.target) < U128 {
        SmallIncrease(c, price, AbsDiff(used, c.target));
      }
    }
  }

  lemma NoOverflowUpTo(c: Constants, price: nat, used: nat, min: nat)
    requires Sane(c) && price <= HALF
    ensures Next(c, price, used, min).Some?
  {
    OverflowsExactly(c, price, used, min);
    Halves(price, c.target * c.denominator);
    QuotientShrinks(price, BELOW_MIN_DENOMINATOR);
    Halves(price, BELOW_MIN_DENOMINATOR);
  }

  // ----- one block -------------------------------------------------------------------------

  /** From the minimum up: the next price is still there, fits u128, and moves by at most
      price / denominator, the fallback included. */
  lemma BoundedMove(c: Constants, price: nat, used: nat, min: nat, next: nat)
    requires Sane(c) && min <= price < U128 && used <= 2 * c.target
    requires Next(c, price, used, min) == Some(next)
    ensures min <= next < U128
    ensures AbsDiff(next, price) <= price / c.denominator
    ensures used > c.target ==> next >= price
    ensures used <= c.target ==> next <= price
  {
    var delta := AbsDiff(used, c.target);
    ChangeBound(c, price, delta);
    QuotientShrinks(price, c.denominator);
  }

  /** More gas used never gives a lower next price, on either side of the fallback. */
  lemma MonotoneInGasUsed(c: Constants, price: nat, min: nat, used1: nat, used2: nat, next1: nat, next2: nat)
    requires Sane(c) && price < U128 && used1 <= used2 <= 2 * c.target
    requires Next(c, price, used1, min) == Some(next1) && Next(c, price, used2, min) == Some(next2)
    ensures next1 <= next2
  {
    if price >= min {
      var d1, d2 := AbsDiff(used1, c.target), AbsDiff(used2, c.target);
      if used2 <= c.target {
        ChangeMono(c, price, d2, d1);
        ChangeBound(c, price, d2);
        QuotientShrinks(price, c.denominator);
      } else if used1 <= c.target {
        BoundedMove(c, price, used1, min, next1);
        BoundedMove(c, price, used2, min, next2);
      } else {
        ChangeMono(c, price, d1, d2);
        ChangeBound(c, price, d1);
      }
    }
  }

  // ----- exactly when, for every u128 gas amount -------------------------------------------

  /** n / d <= q exactly when n < (q + 1) * d. */
  lemma QuotientAtMost(n: nat, d: nat, q: nat)
    requires d >= 1
    ensures n / d <= q <==> n < (q + 1) * d
  {
    DivBelow(n, d);
    if n / d <= q {
      MulMono(d, n / d + 1, q + 1);
    } else {
      MulMono(d, q + 1, n / d);
    }
  }

  lemma MoveUp(c: Constants, price: nat, used: nat, min: nat, next: nat, delta: nat)
    requires Sane(c) && min <= price < U128 && delta >= 1 && used == c.target + delta
    requires Next(c, price, used, min) == Some(next)
    ensures next == if price * delta < U128 then price + Change(c, price, delta)
                    else Min(price + price / c.denominator, U128 - 1)
  {
    assert AbsDiff(used, c.target) == delta;
  }

  lemma RiseWithin(c: Constants, price: nat, product: nat, next: nat)
    requires Sane(c) && price < U128
    requires next == if product < U128 then price + product / (c.target * c.denominator)
                     else Min(price + price / c.denominator, U128 - 1)
    ensures AbsDiff(next, price) <= price / c.denominator <==>
            product >= U128 || product < (price / c.denominator + 1) * (c.target * c.denominator)
  {
    QuotientAtMost(product, c.target * c.denominator, price / c.denominator);
  }

  // ----- the exact next price, without naming the update -----------------------------------

  /** `move` is n / d, rounded down. */
  predicate Floor(move: int, n: nat, d: nat) {
    move >= 0 && move * d <= n < (move + 1) * d
  }

  lemma FloorBetween(q: nat, n: nat, d: nat)
    requires q * d <= n < q * d + d
    ensures Floor(q, n, d)
  {
    MulSucc(q, d);
  }

  lemma Quotient(n: nat, d: nat) returns (q: nat)
    requires d >= 1
    ensures q == n / d && q * d <= n < q * d + d
  {
    q := n / d;
    DivBelow(n, d);
  }

  lemma FloorIs(n: nat, d: nat)
    requires d >= 1
    ensures Floor(n / d, n, d)
  {
    var q := Quotient(n, d);
    FloorBetween(q, n, d);
  }

  /** n / d reaches a distance exactly when n reaches d times that distance. */
  lemma FloorReaches(n: nat, d: nat, distance: nat)
    requires d >= 1
    ensures n / d >= distance <==> n >= distance * d
  {
    if n >= distance * d {
      QuotientAtLeast(distance, d, n);
    } else {
      DivBelow(n, d);
      if n / d >= distance {
        MulMono(d, distance, n / d);
      }
    }
  }

  /** Below the minimum: up by a 333rd, cut at the minimum. */
  lemma ClimbExactly(c: Constants, price: nat, used: nat, min: nat, next: nat)
    requires Sane(c) && price < min && Next(c, price, used, min) == Some(next)
    ensures if price >= (min - price) * 333 then next == min else Floor(next - price, price, 333)
  {
    FloorIs(price, 333);
    FloorReaches(price, 333, min - price);
  }

  /** A block above the target: up by price * (used - target) / (target * denominator), or by
      price / denominator, cut at the top of u128, if that product does not fit. */
  lemma RiseExactly(c: Constants, price: nat, used: nat, min: nat, next: nat)
    requires Sane(c) && min <= price < U128 && used > c.target && Next(c, price, used, min) == Some(next)
    ensures var product := price * (used - c.target);
            if product < U128 then Floor(next - price, product, c.target * c.denominator)
            else if price >= (U128 - 1 - price) * c.denominator then next == U128 - 1
            else Floor(next - price, price, c.denominator)
  {
    var product := price * (used - c.target);
    MoveUp(c, price, used, min, next, used - c.target);
    if product < U128 {
      FloorIs(product, c.target * c.denominator);
    } else {
      FloorIs(price, c.denominator);
      FloorReaches(price, c.denominator, U128 - 1 - price);
    }
  }

  lemma CutAtMinimum(n: nat, d: nat, price: nat, min: nat, next: nat)
    requires d >= 1 && min <= price && n / d <= price && next == Max(price - n / d, min)
    ensures if n >= (price - min) * d then next == min else Floor(price - next, n, d)
  {
    FloorIs(n, d);
    FloorReaches(n, d, price - min);
  }

  /** A block up to the target: down by price * (target - used) / (target * denominator), or by
      price / denominator if that product does not fit, cut at the minimum. */
  lemma FallExactly(c: Constants, price: nat, used: nat, min: nat, next: nat)
    requires Sane(c) && min <= price < U128 && used <= c.target && Next(c, price, used, min) == Some(next)
    ensures var product := price * (c.target - used);
            var (n, d) := if product < U128 then (product, c.target * c.denominator) else (price, c.denominator);
            if n >= (price - min) * d then next == min else Floor(price - next, n, d)
  {
    var product := price * (c.target - used);
    assert AbsDiff(used, c.target) == c.target - used;
    DecreaseFits(c, price, c.target - used);
    QuotientShrinks(price, c.denominator);
    if product < U128 {
      CutAtMinimum(product, c.target * c.denominator, price, min, next);
    } else {
      CutAtMinimum(price, c.denominator, price, min, next);
    }
  }

  // ----- the move bound ---------------------------------------------------------------------

  /** For every gas amount, the move is within price / denominator if and only if the block is not
      above the target, the product overflows, or it is below this bound. */
  lemma MoveBoundExactly(c: Constants, price: nat, used: nat, min: nat, next: nat)
    requires Sane(c) && min <= price < U128 && Next(c, price, used, min) == Some(next)
    ensures AbsDiff(next, price) <= price / c.denominator <==>
            || used <= c.target
            || price * (used - c.target) >= U128
            || price * (used - c.target) < (price / c.denominator + 1) * (c.target * c.denominator)
  {
    if used <= c.target {
      BoundedMove(c, price, used, min, next);
    } else {
      MoveUp(c, price, used, min, next, used - c.target);
      RiseWithin(c, price, price * (used - c.target), next);
    }
  }

  /** The largest delta whose product with the price fits. */
  function LargestFitting(price: nat): nat
    requires price >= 1
  {
    (U128 - 1) / price
  }

  lemma FitsExactly(price: nat, delta: nat)
    requires price >= 1
    ensures price * delta < U128 <==> delta <= LargestFitting(price)
  {
    DivBelow(U128 - 1, price);
    if delta <= LargestFitting(price) {
      MulMono(price, delta, LargestFitting(price));
    } else {
      MulMono(price, LargestFitting(price) + 1, delta);
    }
  }

  predicate OrderedAt(c: Constants, price: nat, min: nat, used1: nat, used2: nat)
    requires Sane(c)
  {
    var next1, next2 := Next(c, price, used1, min), Next(c, price, used2, min);
    next1.Some? && next2.Some? ==> next1.value <= next2.value
  }

  /** More gas never gives a lower price, over all u128 gas amounts. */
  ghost predicate Monotone(c: Constants, price: nat, min: nat)
    requires Sane(c)
  {
    forall used1: nat, used2: nat :: used1 <= used2 < U128 ==> OrderedAt(c, price, min, used1, used2)
  }

  /** Some u128 gas amount triggers the fallback, and a smaller one moves the price further. */
  predicate FallbackUndercuts(c: Constants, price: nat)
    requires Sane(c)
  {
    && price >= 1
    && c.target + LargestFitting(price) + 1 < U128
    && Change(c, price, LargestFitting(price)) > price / c.denominator
  }

  lemma OrderedAbove(c: Constants, price: nat, min: nat, used1: nat, used2: nat)
    requires Sane(c) && 1 <= price < U128 && min <= price && !FallbackUndercuts(c, price)
    requires c.target < used1 <= used2 < U128
    ensures OrderedAt(c, price, min, used1, used2)
  {
    var d1, d2, top := used1 - c.target, used2 - c.target, LargestFitting(price);
    FitsExactly(price, d1);
    FitsExactly(price, d2);
    if d1 <= top {
      ChangeMono(c, price, d1, top);
      if d2 <= top {
        ChangeMono(c, price, d1, d2);
      }
    }
  }

  lemma OrderedBelow(c: Constants, price: nat, min: nat, used1: nat, used2: nat)
    requires Sane(c) && price < U128 && min <= price && used1 <= used2 && used1 <= c.target
    ensures OrderedAt(c, price, min, used1, used2)
  {
    var next1, next2 := Next(c, price, used1, min), Next(c, price, used2, min);
    if next1.Some? && next2.Some? {
      if used2 <= c.target {
        MonotoneInGasUsed(c, price, min, used1, used2, next1.value, next2.value);
      } else {
        BoundedMove(c, price, used1, min, next1.value);
        MoveUp(c, price, used2, min, next2.value, used2 - c.target);
      }
    }
  }

  lemma NotOrdered(c: Constants, price: nat, min: nat)
    requires Sane(c) && price < U128 && min <= price && FallbackUndercuts(c, price)
    ensures !OrderedAt(c, price, min, c.target + LargestFitting(price), c.target + LargestFitting(price) + 1)
  {
    var top := LargestFitting(price);
    FitsExactly(price, top);
    FitsExactly(price, top + 1);
    if top <= c.target {
      ChangeBound(c, price, top);
      assert false;
    }
    OneIsSmall(c, price);
    OverflowsExactly(c, price, c.target + top, min);
  }

  lemma OneIsSmall(c: Constants, price: nat)
    requires Sane(c)
    ensures Change(c, price, 1) <= price / c.denominator
  {
    ChangeBound(c, price, 1);
  }

  /** The update is nondecreasing in the gas used, over all u128 amounts, if and only if the price is
      below the minimum or the fallback does not undercut. */
  lemma MonotoneExactly(c: Constants, price: nat, min: nat)
    requires Sane(c) && price < U128
    ensures Monotone(c, price, min) <==> price < min || !FallbackUndercuts(c, price)
  {
    if price >= min && FallbackUndercuts(c, price) {
      NotOrdered(c, price, min);
    } else if price >= min && price >= 1 {
      forall used1: nat, used2: nat | used1 <= used2 < U128
        ensures OrderedAt(c, price, min, used1, used2)
      {
        if used1 <= c.target {
          OrderedBelow(c, price, min, used1, used2);
        } else {
          OrderedAbove(c, price, min, used1, used2);
        }
      }
    } else if price >= min {
      FreeStaysFree(c, min);
    }
  }

  lemma FreeStaysFree(c: Constants, min: nat)
    requires Sane(c) && min == 0
    ensures Monotone(c, 0, min)
  {
    forall used: nat
      ensures Next(c, 0, used, min) == Some(0)
    {
      assert 0 * AbsDiff(used, c.target) == 0;
    }
  }

  /** A witness for both: the fallback raises the price by less than a smaller block does, and the
      smaller block's rise exceeds price / 48. */
  lemma PastTwiceTarget()
    ensures
      var c, price, used1, used2 := POST_0_14_1, 1_000_000_000_000_000_000_000_000_000, 304_000_000_000, 404_000_000_000;
      && Sane(c) && used1 < used2
      && Next(c, price, used1, c.minPrice) == Some(2_562_500_000_000_000_000_000_000_000)
      && Next(c, price, used2, c.minPrice) == Some(1_020_833_333_333_333_333_333_333_333)
      && !Monotone(c, price, c.minPrice)
  {
    var c, price := POST_0_14_1, 1_000_000_000_000_000_000_000_000_000;
    assert price * 300_000_000_000 < U128;
    assert price * 400_000_000_000 >= U128;
    assert !OrderedAt(c, price, c.minPrice, 304_000_000_000, 404_000_000_000);
  }

  /** The one overflowing block with the current constants: one unit above the target at the highest
      price.  One unit more takes the fallback instead. */
  lemma OneAboveTargetOverflows()
    ensures Next(POST_0_14_1, U128 - 1, 4_000_000_001, POST_0_14_1.minPrice) == None
    ensures Next(POST_0_14_1, U128 - 1, 4_000_000_002, POST_0_14_1.minPrice) == Some(U128 - 1)
  {
  }

  // ----- whole block sequences -------------------------------------------------------------

  /** prices[i + 1] is computed from prices[i] and the gas used by block i. */
  ghost predicate PriceRun(c: Constants, min: nat, prices: seq<nat>, used: seq<nat>)
    requires Sane(c)
  {
    && |prices| == |used| + 1
    && prices[0] < U128
    && (forall i :: 0 <= i < |used| ==> Next(c, prices[i], used[i], min) == Some(prices[i + 1]))
  }

  ghost predicate BlocksFit(c: Constants, used: seq<nat>) {
    forall i :: 0 <= i < |used| ==> used[i] <= c.maxBlock
  }

  /** A run that reaches the minimum stays at or above it and never jumps. */
  lemma {:induction false} RunStaysAbove(c: Constants, min: nat, prices: seq<nat>, used: seq<nat>, from: nat, i: nat)
    requires Sane(c) && PriceRun(c, min, prices, used) && BlocksFit(c, used)
    requires from <= i < |prices| && min <= prices[from] < U128
    ensures min <= prices[i] < U128
    ensures i < |used| ==> AbsDiff(prices[i + 1], prices[i]) <= prices[i] / c.denominator
    decreases i
  {
    if i > from {
      RunStaysAbove(c, min, prices, used, from, i - 1);
      BoundedMove(c, prices[i - 1], used[i - 1], min, prices[i]);
    }
    if i < |used| {
      BoundedMove(c, prices[i], used[i], min, prices[i + 1]);
    }
  }

  function Pow(b: nat, n: nat): nat {
    if n == 0 then 1 else b * Pow(b, n - 1)
  }

  lemma Distributes(d: nat, p: nat, m: nat)
    ensures d * (p + m) == d * p + d * m
    ensures (d + 1) * p == d * p + p
    ensures d >= 1 ==> (d - 1) * p == d * p - p
  {
  }

  lemma StepBounds(d: nat, p: nat, q: nat, m: nat)
    requires d >= 1 && d * m <= p && q <= p + m && p <= q + m
    ensures d * q <= (d + 1) * p && (d - 1) * p <= d * q
  {
    MulMono(d, q, p + m);
    MulMono(d, p, q + m);
    Distributes(d, p, m);
    Distributes(d, q, m);
  }

  lemma Compound(d: nat, p: nat, q: nat, start: nat, up: nat, flat: nat, down: nat)
    requires d >= 1 && AbsDiff(q, p) <= p / d
    requires p * flat <= start * up && start * down <= p * flat
    ensures q * (d * flat) <= start * ((d + 1) * up)
    ensures start * ((d - 1) * down) <= q * (d * flat)
  {
    DivBelow(p, d);
    StepBounds(d, p, q, p / d);
    Scaled(d, p, q, start, up, flat);
    ScaledDown(d, p, q, start, down, flat);
  }

  lemma Reorder(a: nat, b: nat, c: nat)
    ensures a * (b * c) == c * (b * a) == b * (c * a) == b * (a * c)
  {
  }

  lemma Scaled(d: nat, p: nat, q: nat, start: nat, up: nat, flat: nat)
    requires d * q <= (d + 1) * p && p * flat <= start * up
    ensures q * (d * flat) <= start * ((d + 1) * up)
  {
    MulMono(flat, d * q, (d + 1) * p);
    MulMono(d + 1, p * flat, start * up);
    Reorder(q, d, flat);
    Reorder(flat, d + 1, p);
    Reorder(d + 1, start, up);
  }

  lemma ScaledDown(d: nat, p: nat, q: nat, start: nat, down: nat, flat: nat)
    requires d >= 1 && (d - 1) * p <= d * q && start * down <= p * flat
    ensures start * ((d - 1) * down) <= q * (d * flat)
  {
    MulMono(flat, (d - 1) * p, d * q);
    MulMono(d - 1, start * down, p * flat);
    Reorder(q, d, flat);
    Reorder(flat, d - 1, p);
    Reorder(d - 1, start, down);
  }

  /** After n blocks the price has moved by a factor between (47/48)^n and (49/48)^n. */
  lemma {:induction false} GrowthBounded(c: Constants, min: nat, prices: seq<nat>, used: seq<nat>, n: nat)
    requires Sane(c) && PriceRun(c, min, prices, used) && BlocksFit(c, used)
    requires min <= prices[0] && n < |prices|
    ensures prices[n] * Pow(c.denominator, n) <= prices[0] * Pow(c.denominator + 1, n)
    ensures prices[0] * Pow(c.denominator - 1, n) <= prices[n] * Pow(c.denominator, n)
    decreases n
  {
    if n > 0 {
      GrowthBounded(c, min, prices, used, n - 1);
      RunStaysAbove(c, min, prices, used, 0, n - 1);
      Compound(c.denominator, prices[n - 1], prices[n], prices[0],
               Pow(c.denominator + 1, n - 1), Pow(c.denominator, n - 1), Pow(c.denominator - 1, n - 1));
    }
  }

  /** Below the minimum but at least 333, one block strictly raises the price, never past the
      minimum, whatever gas it used. */
  lemma BelowMinRises(c: Constants, price: nat, used: nat, min: nat, next: nat)
    requires Sane(c) && BELOW_MIN_DENOMINATOR <= price < min && Next(c, price, used, min) == Some(next)
    ensures price < next <= min
  {
    QuotientAtLeast(1, BELOW_MIN_DENOMINATOR, price);
  }

  predicate RisesAt(prices: seq<nat>, min: nat, i: nat) {
    i + 1 < |prices| && prices[i] < prices[i + 1] <= min
  }

  /** The first block at which a run that starts in [333, min) is at the minimum; `from` has not. */
  lemma {:induction false} ReachesMinimum(c: Constants, min: nat, prices: seq<nat>, used: seq<nat>, from: nat) returns (n: nat)
    requires Sane(c) && PriceRun(c, min, prices, used)
    requires from < |prices| && BELOW_MIN_DENOMINATOR <= prices[from] <= min
    requires |used| - from >= min - prices[from]
    ensures from <= n < |prices| && n - from <= min - prices[from]
    ensures prices[n] == min
    ensures forall i :: from <= i < n ==> RisesAt(prices, min, i)
    decreases |prices| - from
  {
    n := from;
    if prices[from] < min {
      BelowMinRises(c, prices[from], used[from], min, prices[from + 1]);
      n := ReachesMinimum(c, min, prices, used, from + 1);
    }
  }

  /** From anywhere in [333, min) a long enough run climbs strictly to exactly the minimum and
      then never leaves [min, ...). */
  lemma ClimbsThenStays(c: Constants, min: nat, prices: seq<nat>, used: seq<nat>)
    requires Sane(c) && PriceRun(c, min, prices, used) && BlocksFit(c, used)
    requires min < U128 && BELOW_MIN_DENOMINATOR <= prices[0] < min && |used| >= min - prices[0]
    ensures exists n :: 0 < n < |prices| && ReachedAt(prices, min, n)
  {
    var n := ReachesMinimum(c, min, prices, used, 0);
    forall i | n <= i < |prices|
      ensures min <= prices[i]
    {
      RunStaysAbove(c, min, prices, used, n, i);
    }
    assert ReachedAt(prices, min, n);
  }

  ghost predicate ReachedAt(prices: seq<nat>, min: nat, n: nat)
    requires n < |prices|
  {
    && prices[n] == min
    && (forall i :: 0 <= i < n ==> RisesAt(prices, min, i))
    && (forall i :: n <= i < |prices| ==> min <= prices[i])
  }

  /** A price below 333 and below the minimum never moves. */
  lemma {:induction false} TooLowNeverMoves(c: Constants, min: nat, prices: seq<nat>, used: seq<nat>, i: nat)
    requires Sane(c) && PriceRun(c, min, prices, used)
    requires prices[0] < BELOW_MIN_DENOMINATOR && prices[0] < min && i < |prices|
    ensures prices[i] == prices[0]
  {
    if i > 0 {
      TooLowNeverMoves(c, min, prices, used, i - 1);
    }
  }

  predicate FallsAt(prices: seq<nat>, min: nat, i: nat) {
    i + 1 < |prices| && min <= prices[i + 1] < prices[i]
  }

  /** An empty block strictly lowers a price above the minimum that is at least the denominator. */
  lemma EmptyBlockFalls(c: Constants, price: nat, min: nat)
    requires Sane(c) && min < price < U128 && c.denominator <= price
    ensures Next(c, price, 0, min).Some? && min <= Next(c, price, 0, min).value < price
  {
    OverflowsExactly(c, price, 0, min);
    var next := Next(c, price, 0, min).value;
    FallExactly(c, price, 0, min, next);
    BoundedMove(c, price, 0, min, next);
    MulMono(c.target, c.denominator, price);
    if next == price {
      MulSucc(0, c.target * c.denominator);
      MulSucc(0, c.denominator);
    }
  }

  /** The first block at which a run of empty blocks from there on is at the minimum. */
  lemma {:induction false} FallsToMinimum(c: Constants, min: nat, prices: seq<nat>, used: seq<nat>, from: nat) returns (n: nat)
    requires Sane(c) && PriceRun(c, min, prices, used)
    requires from < |prices| && min <= prices[from] < U128 && c.denominator <= min + 1
    requires (forall i :: from <= i < |used| ==> used[i] == 0) && |used| - from >= prices[from] - min
    ensures from <= n < |prices| && n - from <= prices[from] - min
    ensures prices[n] == min
    ensures forall i :: from <= i < n ==> FallsAt(prices, min, i)
    decreases |prices| - from
  {
    n := from;
    if min < prices[from] {
      EmptyBlockFalls(c, prices[from], min);
      n := FallsToMinimum(c, min, prices, used, from + 1);
    }
  }

  lemma {:induction false} RestsAtMinimum(c: Constants, min: nat, prices: seq<nat>, used: seq<nat>, n: nat, i: nat)
    requires Sane(c) && PriceRun(c, min, prices, used) && min < U128
    requires n <= i < |prices| && prices[n] == min && forall j :: n <= j < |used| ==> used[j] == 0
    ensures prices[i] == min
    decreases i
  {
    if i > n {
      RestsAtMinimum(c, min, prices, used, n, i - 1);
      BoundedMove(c, min, used[i - 1], min, prices[i]);
    }
  }

  /** Empty blocks bring every price down, strictly, to exactly the minimum, and leave it there. */
  lemma EmptyBlocksFallToMinimum(c: Constants, min: nat, prices: seq<nat>, used: seq<nat>)
    requires Sane(c) && PriceRun(c, min, prices, used) && min <= prices[0] && c.denominator <= min + 1
    requires (forall i :: 0 <= i < |used| ==> used[i] == 0) && |used| >= prices[0] - min
    ensures exists n :: 0 <= n < |prices| && FallenAt(prices, min, n)
  {
    var n := FallsToMinimum(c, min, prices, used, 0);
    forall i | n <= i < |prices|
      ensures prices[i] == min
    {
      RestsAtMinimum(c, min, prices, used, n, i);
    }
    assert FallenAt(prices, min, n);
  }

  ghost predicate FallenAt(prices: seq<nat>, min: nat, n: nat)
    requires n < |prices|
  {
    && (forall i :: 0 <= i < n ==> FallsAt(prices, min, i))
    && (forall i :: n <= i < |prices| ==> prices[i] == min)
  }

  // ----- the provider ----------------------------------------------------------------------

  datatype Validation = Valid | Invalid(proposed: nat, expected: nat) | InsufficientData

  class Provider {
    var expected: Option<nat>

    constructor ()
      ensures expected == None
    {
      expected := None;
    }

    /** Stores the next price; an overflow stops before the store. */
    method UpdateAfterBlock(price: nat, consumed: nat, c: Constants) returns (panicked: bool)
      requires Sane(c) && price < U128
      modifies this
      ensures panicked <==> Overflows(c, price, consumed, c.minPrice)
      ensures panicked ==> expected == old(expected)
      ensures !panicked ==> expected == Next(c, price, consumed, c.minPrice)
    {
      OverflowsExactly(c, price, consumed, c.minPrice);
      var next := Next(c, price, consumed, c.minPrice);
      panicked := next == None;
      if !panicked {
        expected := next;
      }
    }

    /** Accepts exactly the stored price. */
    method Validate(proposed: nat) returns (r: Validation)
      ensures r == Valid <==> expected == Some(proposed)
      ensures r == InsufficientData <==> expected == None
      ensures r.Invalid? ==> expected == Some(r.expected) && r.proposed == proposed
    {
      match expected
      case None => r := InsufficientData;
      case Some(e) => r := if proposed == e then Valid else Invalid(proposed, e);
    }
  }
}
