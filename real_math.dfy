/** Options and results, for the values the engine returns and the exceptions it raises. */
module Outcomes {

  datatype Option<T> = None | Some(value: T)

  datatype Result<T, E> = Ok(value: T) | Err(error: E)
}

/** Real-number stand-ins for the host's floating-point `math` module.
    Floats are modelled as `real`; rounding is not modelled. */
module RealMath {

  /** The pieces of Python's `math` module that the pool engine calls:
      `math.sqrt`, `math.log2` and the constant `math.log(2)`.  They cannot be
      computed over `real`, so a pool is given them; `Lawful` states all that
      the model assumes of them. */
  datatype Lib = Lib(sqrt: real -> real, log2: real -> real, ln2: real)

  /** `math.sqrt(v)`. */
  function Sqrt(lib: Lib, v: real): real
  {
    lib.sqrt(v)
  }

  /** `math.log2(v)`. */
  function Log2(lib: Lib, v: real): real
  {
    lib.log2(v)
  }

  /** `sqrt(v)` is the non-negative square root of `v`, if `v` is non-negative. */
  ghost predicate SqrtLaw(lib: Lib, v: real)
  {
    0.0 <= v ==> 0.0 <= Sqrt(lib, v) && Sqrt(lib, v) * Sqrt(lib, v) == v
  }

  /** `sqrt` yields the non-negative square root of every non-negative argument.
      The law is used at the arguments a proof names, through `SqrtLaw`, so
      that it is not applied to every square root in sight. */
  ghost predicate Lawful(lib: Lib)
  {
    forall v {:trigger SqrtLaw(lib, v)} :: SqrtLaw(lib, v)
  }

  function Abs(v: real): (r: real)
    ensures 0.0 <= r && (r == v || r == -v)
  {
    if v < 0.0 then -v else v
  }

  /** Python's `max(0, min(v, 1))`. */
  function Clamp01(v: real): (r: real)
    ensures 0.0 <= r <= 1.0
    ensures 0.0 <= v <= 1.0 ==> r == v
    ensures v < 0.0 ==> r == 0.0
    ensures 1.0 < v ==> r == 1.0
  {
    if v < 0.0 then 0.0 else if 1.0 < v then 1.0 else v
  }

  /** Squaring is strictly increasing on the non-negative reals. */
  lemma {:induction false} SquareIncreasing(r: real, s: real)
    requires 0.0 <= r < s
    ensures r * r < s * s
  {
    calc {
      r * r;
    <=  { assert r * (s - r) >= 0.0; }
      r * s;
    <   { assert (s - r) * s > 0.0; }
      s * s;
    }
  }

  /** Two non-negative numbers with equal squares are equal. */
  lemma {:induction false} EqualRoots(r: real, s: real)
    requires 0.0 <= r && 0.0 <= s && r * r == s * s
    ensures r == s
  {
    if r < s {
      SquareIncreasing(r, s);
    } else if s < r {
      SquareIncreasing(s, r);
    }
  }

  /** `sqrt` is the square root: the only non-negative number squaring to its argument. */
  lemma {:induction false} SqrtIsUnique(lib: Lib, v: real, r: real)
    requires Lawful(lib) && 0.0 <= r && r * r == v
    ensures Sqrt(lib, v) == r
  {
    assert SqrtLaw(lib, v);
    EqualRoots(Sqrt(lib, v), r);
  }

  /** `sqrt(d * d) == |d|`. */
  lemma {:induction false} SqrtOfSquare(lib: Lib, d: real, v: real)
    requires Lawful(lib) && v == d * d
    ensures Sqrt(lib, v) == Abs(d)
  {
    assert Abs(d) * Abs(d) == v;
    SqrtIsUnique(lib, v, Abs(d));
  }

  /** `sqrt(c * c * u) == c * sqrt(u)` for non-negative `c` and `u`. */
  lemma {:induction false} SqrtOfScaled(lib: Lib, c: real, u: real, v: real)
    requires Lawful(lib) && 0.0 <= c && 0.0 <= u && v == c * c * u
    ensures Sqrt(lib, v) == c * Sqrt(lib, u)
  {
    var s := Sqrt(lib, u);
    assert SqrtLaw(lib, u);
    assert (c * s) * (c * s) == c * c * (s * s);
    SqrtIsUnique(lib, v, c * s);
  }

  /** `sqrt` is monotone on the non-negative reals. */
  lemma {:induction false} SqrtMonotone(lib: Lib, u: real, v: real)
    requires Lawful(lib) && 0.0 <= u <= v
    ensures Sqrt(lib, u) <= Sqrt(lib, v)
  {
    var su, sv := Sqrt(lib, u), Sqrt(lib, v);
    assert SqrtLaw(lib, u) && SqrtLaw(lib, v);
    if sv < su {
      SquareIncreasing(sv, su);
    }
  }

  /** The pool's `_sqrt`: `math.sqrt(max(v, 0.0))`, a square root that never raises. */
  function ClampedSqrt(lib: Lib, v: real): (r: real)
    requires Lawful(lib)
    ensures 0.0 <= r
    ensures v <= 0.0 ==> r == 0.0
  {
    var arg := if v < 0.0 then 0.0 else v;
    assert SqrtLaw(lib, arg);
    var r := Sqrt(lib, arg);
    if v <= 0.0 then EqualRoots(r, 0.0); r else r
  }

  /** On a non-negative argument `_sqrt` is the square root. */
  lemma {:induction false} ClampedSqrtSquares(lib: Lib, v: real)
    requires Lawful(lib)
    ensures 0.0 <= v ==> ClampedSqrt(lib, v) * ClampedSqrt(lib, v) == v
  {
    assert SqrtLaw(lib, v);
  }
}
