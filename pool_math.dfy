/** The formulas both versions of the Dyson pool share: the 50/50 rebalance,
    the split of a deposit's constant-product growth into two note amounts,
    and the redemption ratio of a note. */
module PoolMath {
  import opened Outcomes
  import opened RealMath

  /** The exceptions the pool engines raise, by the condition that raises them. */
  datatype Failure =
    | NoPositiveInput       // AssertionError: neither deposit input is positive
    | NegativeInput         // AssertionError: a reverse deposit with m < 0 or n < 0
    | DivisionByZero        // ZeroDivisionError
    | SqrtDomain            // ValueError from math.sqrt of a negative number
    | LogDomain             // ValueError from math.log2 of a non-positive number
    | UnknownNote           // KeyError, or ValueError "Invalid note": no note under that id
    | BadOptionType         // ValueError: the option type is neither "put" nor "call"
    | InsufficientReserves  // ValueError: the pool cannot pay out a revert leg

  /** Value of `x` token0 and `y` token1, in token1, at `price` token1 per token0. */
  function Value(x: real, y: real, price: real): real
  {
    x * price + y
  }

  /** Taking `(a0, a1)` out of `(x, y)` leaves the value of `(x, y)` less the value of `(a0, a1)`. */
  lemma {:induction false} ValueSplits(x: real, y: real, a0: real, a1: real, price: real)
    ensures Value(x - a0, y - a1, price) + Value(a0, a1, price) == Value(x, y, price)
  {
    assert (x - a0) * price == x * price - a0 * price;
  }

  /** Trade the reserves at `price` back to a 50/50 value split.
      `None` is the ZeroDivisionError a zero price raises when token1 is held. */
  function Rebalance(x: real, y: real, price: real): (r: Option<(real, real)>)
    ensures r.None? <==> price == 0.0 && y != 0.0
  {
    var ethVal := x * price;
    var target := (ethVal + y) / 2.0;
    if ethVal > target then
      if price == 0.0 then None
      else Some((x - (ethVal - target) / price, y + (ethVal - target)))
    else if y > target then
      if price == 0.0 then None
      else Some((x + (y - target) / price, y - (y - target)))
    else
      Some((x, y))
  }

  /** The rebalance trades at `price` without changing the total value, and
      leaves each side holding half of it. */
  lemma {:induction false} RebalanceSplitsValue(x: real, y: real, price: real, r: (real, real))
    requires Rebalance(x, y, price) == Some(r)
    ensures Value(r.0, r.1, price) == Value(x, y, price)
    ensures r.0 * price == r.1 == Value(x, y, price) / 2.0
  {
    var ethVal := x * price;
    var target := (ethVal + y) / 2.0;
    if ethVal > target {
      var diff := (ethVal - target) / price;
      assert diff * price == ethVal - target;
      assert (x - diff) * price == ethVal - diff * price;
    } else if y > target {
      var diff := y - target;
      assert (diff / price) * price == diff;
      assert (x + diff / price) * price == ethVal + (diff / price) * price;
    }
  }

  /** Reserves already split 50/50 at `price` are left as they are, so
      rebalancing twice is rebalancing once. */
  lemma {:induction false} RebalanceIdempotent(x: real, y: real, price: real)
    requires x * price == y
    ensures Rebalance(x, y, price) == Some((x, y))
  {
  }

  /** The pool's liquidity `k = _sqrt(x * y)`, never negative. */
  function KOf(lib: Lib, x: real, y: real): (k: real)
    requires Lawful(lib)
    ensures 0.0 <= k
    ensures x * y <= 0.0 ==> k == 0.0
  {
    ClampedSqrt(lib, x * y)
  }

  /** For reserves with a non-negative product, `k` is the root of the product. */
  lemma {:induction false} KOfSquares(lib: Lib, x: real, y: real)
    requires Lawful(lib)
    ensures 0.0 <= x * y ==> KOf(lib, x, y) * KOf(lib, x, y) == x * y
  {
    ClampedSqrtSquares(lib, x * y);
  }

  /** The cross ratio of the note split: `num / reserve`, or 0 for an empty reserve. */
  function CrossRatio(num: real, reserve: real): real
  {
    if reserve != 0.0 then num / reserve else 0.0
  }

  /** Split `qSq` into `(note0, note1)`.  The side whose cross product with the
      other reserve is larger gets its input plus the other input converted at
      the pool's ratio; the other side gets `qSq` divided by that.  `None` is the
      ZeroDivisionError raised when the dominant note is 0. */
  function ForwardNotes(x: real, y: real, in0: real, in1: real, qSq: real): (r: Option<(real, real)>)
  {
    if in0 * y > in1 * x then
      var note0 := in0 + CrossRatio(in1 * x, y);
      if note0 == 0.0 then None else Some((note0, qSq / note0))
    else
      var note1 := in1 + CrossRatio(in0 * y, x);
      if note1 == 0.0 then None else Some((qSq / note1, note1))
  }

  /** The two notes multiply to `qSq`; the dominant side's note is its input
      plus the other input at the pool's ratio, and the split fails exactly
      when that note is 0. */
  lemma {:induction false} ForwardNotesSplit(x: real, y: real, in0: real, in1: real, qSq: real)
    ensures var r := ForwardNotes(x, y, in0, in1, qSq);
      && (r.Some? ==> r.value.0 * r.value.1 == qSq)
      && (in0 * y > in1 * x ==>
            && (r.None? <==> in0 + CrossRatio(in1 * x, y) == 0.0)
            && (r.Some? ==> r.value.0 == in0 + CrossRatio(in1 * x, y)))
      && (in0 * y <= in1 * x ==>
            && (r.None? <==> in1 + CrossRatio(in0 * y, x) == 0.0)
            && (r.Some? ==> r.value.1 == in1 + CrossRatio(in0 * y, x)))
  {
    var r := ForwardNotes(x, y, in0, in1, qSq);
    if r.Some? {
      if in0 * y > in1 * x {
        assert r.value.0 * (qSq / r.value.0) == qSq;
      } else {
        assert (qSq / r.value.1) * r.value.1 == qSq;
      }
    }
  }

  /** A positive factor keeps the sign of the other. */
  lemma {:induction false} SignOfProduct(a: real, b: real)
    requires 0.0 < a
    ensures 0.0 < a * b <==> 0.0 < b
    ensures a * b < 0.0 <==> b < 0.0
    ensures a * b == b * a
  {
  }

  /** With non-negative reserves and inputs, one of them positive, the split
      fails exactly when only token0 comes in and the pool holds no token1. */
  lemma {:induction false} ForwardNotesDefined(x: real, y: real, in0: real, in1: real, qSq: real)
    requires 0.0 <= x && 0.0 <= y && 0.0 <= in0 && 0.0 <= in1
    requires 0.0 < in0 || 0.0 < in1
    ensures ForwardNotes(x, y, in0, in1, qSq).None? <==> in1 == 0.0 && y == 0.0
  {
    if in0 * y > in1 * x {
      assert 0.0 < y;
      assert 0.0 <= in1 * x / y;
    } else if 0.0 < in1 {
      assert 0.0 <= CrossRatio(in0 * y, x) by {
        if x != 0.0 { assert 0.0 <= in0 * y; }
      }
    } else {
      assert 0.0 < in0;
      SignOfProduct(in0, y);
    }
  }

  /** With non-negative reserves, inputs and `qSq`, both note amounts are non-negative. */
  lemma {:induction false} ForwardNotesNonNegative(x: real, y: real, in0: real, in1: real, qSq: real)
    requires 0.0 <= x && 0.0 <= y && 0.0 <= in0 && 0.0 <= in1 && 0.0 <= qSq
    requires ForwardNotes(x, y, in0, in1, qSq).Some?
    ensures 0.0 <= ForwardNotes(x, y, in0, in1, qSq).value.0
    ensures 0.0 <= ForwardNotes(x, y, in0, in1, qSq).value.1
  {
    var r := ForwardNotes(x, y, in0, in1, qSq).value;
    ForwardNotesSplit(x, y, in0, in1, qSq);
    if in0 * y > in1 * x {
      assert 0.0 <= CrossRatio(in1 * x, y) by {
        if y != 0.0 { assert 0.0 <= in1 * x; }
      }
      assert 0.0 < r.0;
      SignOfProduct(r.0, r.1);
    } else {
      assert 0.0 <= CrossRatio(in0 * y, x) by {
        if x != 0.0 { assert 0.0 <= in0 * y; }
      }
      assert 0.0 < r.1;
      SignOfProduct(r.1, r.0);
    }
  }

  /** Share of a note `(t0, t1)` paid in token0 when the pool holds `(x, y)`,
      clamped to [0, 1]; 0 when either note amount is 0. */
  function WithdrawRatio(x: real, y: real, t0: real, t1: real): (r: real)
    ensures 0.0 <= r <= 1.0
    ensures t0 == 0.0 || t1 == 0.0 ==> r == 0.0
  {
    var num := x * t1 + t0 * t1 - y * t0;
    Clamp01(if t0 != 0.0 && t1 != 0.0 then num / (2.0 * t0 * t1) else 0.0)
  }

  /** The ratio is the redemption formula `1/2 + x/(2 t0) - y/(2 t1)`, clamped. */
  lemma {:induction false} WithdrawRatioFormula(x: real, y: real, t0: real, t1: real)
    requires t0 != 0.0 && t1 != 0.0
    ensures WithdrawRatio(x, y, t0, t1) == Clamp01(0.5 + x / (2.0 * t0) - y / (2.0 * t1))
  {
    var num := x * t1 + t0 * t1 - y * t0;
    var d := 2.0 * t0 * t1;
    assert d != 0.0;
    assert x / (2.0 * t0) == (x * t1) / d;
    assert y / (2.0 * t1) == (y * t0) / d;
    assert 0.5 == (t0 * t1) / d;
    assert num / d == (x * t1) / d + (t0 * t1) / d - (y * t0) / d;
  }

  /** The amounts paid out on a note: `ratio * t0` of token0 and
      `(1 - ratio) * t1` of token1, neither above its face amount. */
  function PayoutAmounts(x: real, y: real, t0: real, t1: real): (r: (real, real))
    ensures 0.0 <= t0 ==> 0.0 <= r.0 <= t0
    ensures 0.0 <= t1 ==> 0.0 <= r.1 <= t1
    ensures t0 == 0.0 || t1 == 0.0 ==> r == (0.0, t1)
  {
    var ratio := WithdrawRatio(x, y, t0, t1);
    assert 0.0 <= t0 ==> ratio * t0 <= t0 by {
      if 0.0 <= t0 { assert (1.0 - ratio) * t0 >= 0.0; }
    }
    assert 0.0 <= t1 ==> (1.0 - ratio) * t1 <= t1 by {
      if 0.0 <= t1 { assert ratio * t1 >= 0.0; }
    }
    (ratio * t0, (1.0 - ratio) * t1)
  }

  /** A note is redeemed in full: the shares of its two amounts add up to one. */
  lemma {:induction false} PayoutRedeemsWholeNote(x: real, y: real, t0: real, t1: real)
    requires t0 != 0.0 && t1 != 0.0
    ensures var r := PayoutAmounts(x, y, t0, t1);
      r.0 / t0 + r.1 / t1 == 1.0
  {
    var ratio := WithdrawRatio(x, y, t0, t1);
    ShareOf(ratio, t0);
    ShareOf(1.0 - ratio, t1);
  }

  /** `r * t` is the share `r` of a non-zero `t`. */
  lemma {:induction false} ShareOf(r: real, t: real)
    requires t != 0.0
    ensures (r * t) / t == r
  {
  }
}
