/**
The load averages: a fixed-point power in O(log n) steps with a proven error
bound, and the exponentially weighted means built on it.
*/
module LoadAverage {
  import opened Common

  const FSHIFT: nat := 11
  const FIXED_1: nat := 2048
  const EXP_1: nat := 1884
  const EXP_5: nat := 2014
  const EXP_15: nat := 2037

  /** One past the largest unsigned long. */
  const WORD: nat := 0x1_0000_0000_0000_0000

  function Pow2(f: nat): nat { if f == 0 then 1 else 2 * Pow2(f - 1) }

  /** The exact power, on reals. */
  function Pow(x: real, n: nat): real { if n == 0 then 1.0 else x * Pow(x, n - 1) }

  function Prod(a: nat, b: nat): nat { a * b }

  function Mul(x: real, y: real): real { x * y }

  function Abs(x: real): real { if x < 0.0 then -x else x }

  /** Divide by 2^f, rounding to the nearest. */
  function Round(a: nat, f: nat): nat
    requires f > 0 && Pow2(f) > 0
  {
    Div(a + Pow2(f - 1), Pow2(f))
  }

  function Div(a: nat, b: nat): nat
    requires b > 0
  {
    a / b
  }

  lemma {:induction false} Pow2Positive(f: nat)
    ensures Pow2(f) > 0
  {
    if f > 0 { Pow2Positive(f - 1); }
  }

  // ----- exact powers -----

  lemma {:induction false} PowUnit(x: real, n: nat)
    requires 0.0 <= x <= 1.0
    ensures 0.0 <= Pow(x, n) <= 1.0
  {
    if n > 0 {
      PowUnit(x, n - 1);
      UnitShrinks(x, Pow(x, n - 1));
      assert Mul(x, Pow(x, n - 1)) == Pow(x, n);
    }
  }

  lemma {:induction false} OneMul(y: real)
    ensures Mul(1.0, y) == y
  {
  }

  lemma {:induction false} PowStep(x: real, n: nat)
    ensures Pow(x, n + 1) == Mul(x, Pow(x, n))
  {
  }

  lemma {:induction false} MulAssoc(x: real, y: real, z: real)
    ensures Mul(Mul(x, y), z) == Mul(x, Mul(y, z))
  {
  }

  lemma {:induction false} PowAdd(x: real, m: nat, n: nat)
    ensures Pow(x, m + n) == Mul(Pow(x, m), Pow(x, n))
  {
    hide Mul;
    OneMul(Pow(x, n));
    if m > 0 {
      PowAdd(x, m - 1, n);
      PowStep(x, m - 1);
      PowStep(x, m - 1 + n);
      MulAssoc(x, Pow(x, m - 1), Pow(x, n));
    }
  }

  // ----- one rounded product -----

  lemma {:induction false} RoundBound(a: nat, f: nat)
    requires f > 0 && Pow2(f) > 0
    ensures -(Pow2(f) as int) < 2 * (Prod(Pow2(f), Round(a, f)) - a) <= Pow2(f)
  {
    DivRound(a, Pow2(f - 1), Pow2(f));
  }

  lemma {:induction false} DivRound(a: int, h: int, u: int)
    requires 0 < u == 2 * h
    ensures -u < 2 * (u * ((a + h) / u) - a) <= u
  {
    var q, r := (a + h) / u, (a + h) % u;
    var t := u * q;
    assert t + r == a + h;
  }

  lemma {:induction false} CastProduct(a: nat, b: nat)
    ensures Prod(a, b) as real == Mul(a as real, b as real)
  {
    if a > 0 {
      CastProduct(a - 1, b);
      assert a * b == (a - 1) * b + b;
      assert (a * b) as real == ((a - 1) * b) as real + b as real;
      assert (a - 1) as real * b as real == a as real * b as real - b as real;
    }
  }

  lemma {:induction false} Distributes(u: real, a: real, b: real)
    ensures Mul(u, a + b) == Mul(u, a) + Mul(u, b) && Mul(u, a - b) == Mul(u, a) - Mul(u, b)
  {
  }

  lemma {:induction false} Reassociates(u: real, p: real, q: real)
    ensures Mul(Mul(u, p), Mul(u, q)) == Mul(u, Mul(u, Mul(p, q)))
  {
  }

  lemma {:induction false} Cross(r: real, x: real, r': real, x': real)
    ensures Mul(r, x) - Mul(r', x') == Mul(r, x - x') + Mul(x', r - r')
  {
  }

  lemma {:induction false} UnitShrinks(u: real, q: real)
    requires 0.0 <= u && 0.0 <= q <= 1.0
    ensures 0.0 <= Mul(u, q) <= u
  {
    assert u * q <= u * 1.0;
  }

  lemma {:induction false} BoundedProduct(u: real, r: real, d: real, e: real)
    requires 0.0 <= r <= u && 0.0 <= e && Abs(d) <= e
    ensures Abs(Mul(r, d)) <= Mul(u, e)
  {
    assert r * e <= u * e;
    assert r * d <= r * e && r * (-e) <= r * d;
    assert r * (-e) == -(r * e);
  }

  lemma {:induction false} Cancels(u: real, a: real, b: real)
    requires 0.0 < u && Abs(Mul(u, a)) <= Mul(u, b)
    ensures Abs(a) <= b
  {
    if a > b { assert u * (a - b) > 0.0; }
    if -a > b { assert u * (-a - b) > 0.0; }
  }

  /** `v` rounds r*y/u, where r and y stand for u*p and u*q: the errors add up, with half a unit for the rounding. */
  lemma {:induction false} RoundedError(u: real, r: real, y: real, v: real, p: real, q: real, er: real, ey: real)
    requires 0.0 < u && 0.0 <= r <= u && 0.0 <= q <= 1.0 && 0.0 <= er && 0.0 <= ey
    requires Abs(r - Mul(u, p)) <= er && Abs(y - Mul(u, q)) <= ey
    requires Abs(Mul(u, v) - Mul(r, y)) <= Mul(u, 0.5)
    ensures Abs(v - Mul(u, Mul(p, q))) <= er + ey + 0.5
  {
    hide Mul;
    var up, uq := Mul(u, p), Mul(u, q);
    UnitShrinks(u, q);
    Cross(r, y, up, uq);
    BoundedProduct(u, r, y - uq, ey);
    BoundedProduct(u, uq, r - up, er);
    Reassociates(u, p, q);
    Distributes(u, v, Mul(u, Mul(p, q)));
    Distributes(u, er, ey);
    Distributes(u, er + ey, 0.5);
    Cancels(u, v - Mul(u, Mul(p, q)), er + ey + 0.5);
  }

  /** `v` stands for u*X^n, give or take `e`. */
  ghost predicate Near(v: nat, u: nat, x: real, n: nat, e: real) {
    v <= u && Abs(v as real - Mul(u as real, Pow(x, n))) <= e
  }

  /** The rounded product of two such numbers. */
  lemma {:induction false} RoundedProduct(f: nat, x: real, r: nat, m: nat, er: real, y: nat, n: nat, ey: real)
    requires f > 0 && Pow2(f) > 0 && 0.0 <= x <= 1.0 && 0.0 <= er && 0.0 <= ey
    requires Near(r, Pow2(f), x, m, er) && Near(y, Pow2(f), x, n, ey)
    ensures Near(Round(Prod(r, y), f), Pow2(f), x, m + n, er + ey + 0.5)
  {
    hide Mul, Prod, Round, Pow, Pow2;
    var u, v := Pow2(f), Round(Prod(r, y), f);
    RoundIs(r, y, f);
    PowUnit(x, n);
    PowAdd(x, m, n);
    RoundedError(u as real, r as real, y as real, v as real, Pow(x, m), Pow(x, n), er, ey);
  }

  lemma {:induction false} RoundIs(r: nat, y: nat, f: nat)
    requires f > 0 && Pow2(f) > 0 && r <= Pow2(f) && y <= Pow2(f)
    ensures var u, v := Pow2(f), Round(Prod(r, y), f);
            v <= u && Abs(Mul(u as real, v as real) - Mul(r as real, y as real)) <= Mul(u as real, 0.5)
  {
    hide Round, Pow2, Prod, Mul;
    var u, v := Pow2(f), Round(Prod(r, y), f);
    RoundBound(Prod(r, y), f);
    ProductFits(r, y, u, v);
    CastProduct(r, y);
    CastProduct(u, v);
    HalfError(Prod(u, v), Prod(r, y), u);
  }

  lemma {:induction false} HalfError(a: nat, b: nat, u: nat)
    requires 2 * (b - a) < u && 2 * (a - b) <= u
    ensures Abs(a as real - b as real) <= Mul(u as real, 0.5)
  {
  }

  lemma {:induction false} ProductFits(r: nat, y: nat, u: nat, v: nat)
    requires r <= u && y <= u && 0 < u && 2 * (Prod(u, v) - Prod(r, y)) <= u
    ensures v <= u
  {
    MulLe(r, u, y);
    MulLe(y, u, u);
    assert (u + 1) * u == u * u + u;
    if v > u { MulLe(u + 1, v, u); }
  }

  // ----- fixed_power_int -----

  /** Add one half and divide by 2^f, in unsigned longs. */
  function Shifted(a: nat, f: nat): nat
    requires f > 0 && Pow2(f) > 0
  {
    Div(Word(Word(a) + Pow2(f - 1)), Pow2(f))
  }

  /** The value of an unsigned long. */
  function Word(a: nat): nat { a % WORD }

  /** What the loop of fixed_power_int makes of `result`, the square `y` and what is left of the exponent. */
  function PowerLoop(result: nat, y: nat, k: nat, f: nat): nat
    requires f > 0 && Pow2(f) > 0
    decreases k
  {
    if k == 0 then result
    else
      var r := if k % 2 == 1 then Shifted(Prod(result, y), f) else result;
      if k / 2 == 0 then r else PowerLoop(r, Shifted(Prod(y, y), f), k / 2, f)
  }

  /** `r` is within n/2 of 2^f * (x/2^f)^n, and not above 2^f. */
  ghost predicate CloseToPower(r: nat, x: nat, f: nat, n: nat) {
    Pow2(f) > 0 && Near(r, Pow2(f), x as real / Pow2(f) as real, n, n as real / 2.0)
  }

  /** fixed_power_int. For up to 31 fractional bits and a base up to one it is close to the power. */
  method FixedPowerInt(x: nat, f: nat, n: nat) returns (result: nat)
    requires 1 <= f < 64
    ensures Pow2(f) > 0 && result == PowerLoop(Pow2(f), x, n, f)
    ensures f <= 31 && x <= Pow2(f) ==> CloseToPower(result, x, f, n)
  {
    hide Prod, Shifted, Pow2, CloseToPower;
    Pow2Positive(f);
    if f <= 31 && x <= Pow2(f) { PowerIsClose(x, f, n); }
    result := Pow2(f);
    var y: nat, k: nat := x, n;
    if k != 0 {
      while true
        invariant k > 0 && PowerLoop(result, y, k, f) == PowerLoop(Pow2(f), x, n, f)
        decreases k
      {
        if k % 2 == 1 { result := Shifted(Prod(result, y), f); }
        k := k / 2;
        if k == 0 { break; }
        y := Shifted(Prod(y, y), f);
      }
    }
  }

  lemma {:induction false} PowerIsClose(x: nat, f: nat, n: nat)
    requires 1 <= f <= 31 && x <= Pow2(f)
    ensures Pow2(f) > 0 && CloseToPower(PowerLoop(Pow2(f), x, n, f), x, f, n)
  {
    Pow2Positive(f);
    hide Mul, Prod, Shifted, Pow, Pow2, PowerLoop;
    UnitBase(x, Pow2(f));
    OneTimes(n);
    LoopIsClose(f, x as real / Pow2(f) as real, Pow2(f), 0, x, 1, n);
  }

  /** The loop invariant: `result` has done `done` of the exponent, and `y` stands for the `m`-th power. */
  lemma {:induction false} LoopIsClose(f: nat, x: real, result: nat, done: nat, y: nat, m: nat, k: nat)
    requires 1 <= f <= 31 && Pow2(f) > 0 && 0.0 <= x <= 1.0 && m > 0
    requires Near(result, Pow2(f), x, done, done as real / 2.0) && Near(y, Pow2(f), x, m, (m - 1) as real / 2.0)
    ensures var n := done + Prod(k, m); Near(PowerLoop(result, y, k, f), Pow2(f), x, n, n as real / 2.0)
    decreases k
  {
    hide Mul, Prod, Shifted, Pow, Pow2, Near;
    if k == 0 {
      NoTimes(m);
    } else {
      var er, ey := done as real / 2.0, (m - 1) as real / 2.0;
      var r, d: nat := result, done;
      if k % 2 == 1 {
        FittingProduct(f, x, result, done, er, y, m, ey);
        r, d := Shifted(Prod(result, y), f), done + m;
      }
      HalfStep(k, m, done + Prod(k, m), d);
      if k / 2 > 0 {
        FittingProduct(f, x, y, m, ey, y, m, ey);
        LoopIsClose(f, x, r, d, Shifted(Prod(y, y), f), 2 * m, k / 2);
      }
    }
  }

  lemma {:induction false} NoTimes(m: nat)
    ensures Prod(0, m) == 0
  {
  }

  /** Where no product wraps, the shift in unsigned longs is a rounded product. */
  lemma {:induction false} FittingProduct(f: nat, x: real, r: nat, m: nat, er: real, y: nat, n: nat, ey: real)
    requires 1 <= f <= 31 && Pow2(f) > 0 && 0.0 <= x <= 1.0 && 0.0 <= er && 0.0 <= ey
    requires Near(r, Pow2(f), x, m, er) && Near(y, Pow2(f), x, n, ey)
    ensures Near(Shifted(Prod(r, y), f), Pow2(f), x, m + n, er + ey + 0.5)
  {
    NearMeans(r, Pow2(f), x, m, er);
    NearMeans(y, Pow2(f), x, n, ey);
    NoOverflow(r, y, f);
    ShiftIsRound(Prod(r, y), f);
    hide Prod, Pow, Pow2, Near, Round, Shifted, Mul;
    RoundedProduct(f, x, r, m, er, y, n, ey);
  }

  lemma {:induction false} ShiftIsRound(a: nat, f: nat)
    requires f > 0 && Pow2(f) > 0 && a + Pow2(f - 1) < WORD
    ensures Shifted(a, f) == Round(a, f)
  {
    hide Pow2, Div, Word;
    SmallWord(a);
    SmallWord(a + Pow2(f - 1));
  }

  lemma {:induction false} SmallWord(a: nat)
    requires a < WORD
    ensures Word(a) == a
  {
  }

  lemma {:induction false} OneTimes(n: nat)
    ensures Prod(n, 1) == n && Prod(0, 1) == 0
  {
  }

  lemma {:induction false} NearMeans(v: nat, u: nat, x: real, n: nat, e: real)
    requires Near(v, u, x, n, e)
    ensures v <= u && Abs(v as real - Mul(u as real, Pow(x, n))) <= e
  {
  }

  lemma {:induction false} Pow2Mono(f: nat, g: nat)
    requires f <= g
    ensures Pow2(f) <= Pow2(g)
  {
    if f < g { Pow2Mono(f, g - 1); }
  }

  lemma {:induction false} Pow2Of31()
    ensures Pow2(31) == 0x8000_0000
  {
    assert Pow2(6) == 64;
    assert Pow2(11) == 32 * Pow2(6);
    assert Pow2(16) == 32 * Pow2(11);
    assert Pow2(21) == 32 * Pow2(16);
    assert Pow2(26) == 32 * Pow2(21);
    assert Pow2(31) == 32 * Pow2(26);
  }

  /** No product wraps. */
  lemma {:induction false} NoOverflow(r: nat, y: nat, f: nat)
    requires 1 <= f <= 31 && r <= Pow2(f) && y <= Pow2(f)
    ensures Prod(r, y) + Pow2(f - 1) < WORD
  {
    Pow2Of31();
    Pow2Mono(f, 31);
    Pow2Mono(f - 1, 31);
    hide Pow2;
    MulLe(r, Pow2(31), y);
    MulLe(y, Pow2(31), Pow2(31));
  }

  lemma {:induction false} Pow2Add(f: nat, g: nat)
    ensures Pow2(f + g) == Pow2(f) * Pow2(g)
  {
    if f > 0 { Pow2Add(f - 1, g); }
  }

  lemma {:induction false} Pow2Of64()
    ensures Pow2(64) == WORD
  {
    Pow2Of31();
    Pow2Add(31, 31);
    Pow2Add(62, 2);
    assert Pow2(2) == 4;
  }

  /** With 32 fractional bits or more the products wrap: one times one comes out as nothing. So no product of two
      numbers up to one wraps if and only if there are at most 31. */
  lemma {:induction false} ProductsFitIff(f: nat)
    requires 1 <= f < 64
    ensures (forall r: nat, y: nat :: r <= Pow2(f) && y <= Pow2(f) ==> Prod(r, y) + Pow2(f - 1) < WORD) <==> f <= 31
    ensures f >= 32 ==> Pow2(f) > 0 && Shifted(Prod(Pow2(f), Pow2(f)), f) == 0
  {
    if f <= 31 {
      forall r: nat, y: nat | r <= Pow2(f) && y <= Pow2(f) ensures Prod(r, y) + Pow2(f - 1) < WORD {
        NoOverflow(r, y, f);
      }
    } else {
      OneWraps(f);
      assert Prod(Pow2(f), Pow2(f)) + Pow2(f - 1) >= WORD;
    }
  }

  /** So fixed_power_int is close to the power, for every base up to one and every exponent, if and only if there are
      at most 31 fractional bits: beyond, the first power of one is zero. */
  lemma {:induction false} PowerIsCloseIff(f: nat)
    requires 1 <= f < 64
    ensures Pow2(f) > 0
    ensures (forall x: nat, n: nat :: x <= Pow2(f) ==> CloseToPower(PowerLoop(Pow2(f), x, n, f), x, f, n)) <==> f <= 31
  {
    Pow2Positive(f);
    if f <= 31 {
      forall x: nat, n: nat | x <= Pow2(f) ensures CloseToPower(PowerLoop(Pow2(f), x, n, f), x, f, n) {
        PowerIsClose(x, f, n);
      }
    } else {
      OneIsLost(f);
    }
  }

  lemma {:induction false} OneIsLost(f: nat)
    requires 32 <= f < 64
    ensures Pow2(f) > 0 && PowerLoop(Pow2(f), Pow2(f), 1, f) == 0
    ensures !CloseToPower(PowerLoop(Pow2(f), Pow2(f), 1, f), Pow2(f), f, 1)
  {
    OneWraps(f);
    FirstPowerOfOne();
    OneOfOne(Pow2(f) as real);
    hide Shifted, Prod, Pow2, Pow, Mul;
  }

  lemma {:induction false} FirstPowerOfOne()
    ensures Pow(1.0, 1) == 1.0
  {
    assert Pow(1.0, 0) == 1.0;
  }

  lemma {:induction false} OneOfOne(u: real)
    requires u > 0.0
    ensures u / u == 1.0 && Mul(u, 1.0) == u
  {
  }

  lemma {:induction false} OneWraps(f: nat)
    requires 32 <= f < 64
    ensures Prod(Pow2(f), Pow2(f)) >= WORD && Pow2(f) > 0 && Shifted(Prod(Pow2(f), Pow2(f)), f) == 0
  {
    Pow2Of64();
    Pow2Add(f, f);
    Pow2Add(64, 2 * f - 64);
    Pow2Positive(2 * f - 64);
    Pow2Positive(f - 1);
    Pow2Mono(f, 64);
    var h, rest := Pow2(f - 1), Pow2(2 * f - 64);
    assert Pow2(f) == 2 * h;
    hide Pow2, Word, Div;
    WholeWords(rest);
    HalfIsNothing(h);
  }

  lemma {:induction false} WholeWords(k: nat)
    requires k > 0
    ensures Word(WORD * k) == 0 && WORD * k >= WORD
  {
  }

  lemma {:induction false} HalfIsNothing(h: nat)
    requires 0 < 2 * h <= WORD
    ensures Div(Word(h), 2 * h) == 0
  {
  }

  lemma {:induction false} HalfStep(k: nat, m: nat, n: nat, done: nat)
    requires n == (if k % 2 == 1 then done - m else done) + Prod(k, m)
    ensures n == done + Prod(k / 2, 2 * m) && Prod(0, 2 * m) == 0
  {
    assert k == 2 * (k / 2) + k % 2;
    assert k * m == (k / 2) * (2 * m) + (k % 2) * m;
  }

  lemma {:induction false} Quotient(x: real, u: real)
    requires 0.0 < u && 0.0 <= x <= u
    ensures 0.0 <= x / u <= 1.0
  {
  }

  lemma {:induction false} UnitBase(x: nat, u: nat)
    requires 0 < u && x <= u
    ensures var b := x as real / u as real; 0.0 <= b <= 1.0 && Near(x, u, b, 1, 0.0) && Near(u, u, b, 0, 0.0)
  {
    var b := x as real / u as real;
    assert u as real * b == x as real;
    assert Pow(b, 1) == b * Pow(b, 0);
    Quotient(x as real, u as real);
  }

  // ----- calc_load -----

  function Min(a: nat, b: nat): nat { if a < b then a else b }
  function Max(a: nat, b: nat): nat { if a < b then b else a }

  /** calc_load: a1 = a0 * e + a * (1 - e). */
  function CalcLoad(load: nat, exp: nat, active: nat): nat
    requires exp <= FIXED_1
  {
    var kept: nat := load * exp;
    var added: nat := active * (FIXED_1 - exp);
    (kept + added + FIXED_1 / 2) / FIXED_1
  }

  /** A step never leaves the interval spanned by the old value and the sample. */
  lemma {:induction false} CalcLoadStays(load: nat, exp: nat, active: nat)
    requires exp <= FIXED_1
    ensures Min(load, active) <= CalcLoad(load, exp, active) <= Max(load, active)
  {
    var rest, lo, hi := FIXED_1 - exp, Min(load, active), Max(load, active);
    MulLe(lo, load, exp);
    MulLe(load, hi, exp);
    MulLe(lo, active, rest);
    MulLe(active, hi, rest);
    Total(lo, exp);
    Total(hi, exp);
    Rounds(load * exp + active * rest, lo, hi);
  }

  /** calc_load as it is computed, in unsigned longs. */
  function CalcLoadWord(load: nat, exp: nat, active: nat): nat
    requires exp <= FIXED_1
  {
    var kept := Word(load * exp);
    var added := Word(active * (FIXED_1 - exp));
    Word(Word(kept + added) + FIXED_1 / 2) / FIXED_1
  }

  /** Unsigned longs compute the average if and only if the sum fits into one; loads and samples up to `hi` do
      if `hi` fits with FSHIFT more bits. */
  lemma {:induction false} CalcLoadIsExactIff(load: nat, exp: nat, active: nat, hi: nat)
    requires exp <= FIXED_1
    ensures CalcLoadWord(load, exp, active) == CalcLoad(load, exp, active) <==>
      load * exp + active * (FIXED_1 - exp) + FIXED_1 / 2 < WORD
    ensures load <= hi && active <= hi && hi * FIXED_1 + FIXED_1 / 2 < WORD ==>
      CalcLoadWord(load, exp, active) == CalcLoad(load, exp, active)
  {
    hide Word;
    WrappedLoad(load * exp, active * (FIXED_1 - exp));
    if load <= hi && active <= hi { LoadAtMost(load, exp, active, hi); }
  }

  lemma {:induction false} LoadAtMost(load: nat, exp: nat, active: nat, hi: nat)
    requires exp <= FIXED_1 && load <= hi && active <= hi
    ensures load * exp + active * (FIXED_1 - exp) <= hi * FIXED_1
  {
    MulLe(load, hi, exp);
    MulLe(active, hi, FIXED_1 - exp);
    Total(hi, exp);
  }

  lemma {:induction false} WrappedLoad(kept: nat, added: nat)
    ensures Word(Word(Word(kept) + Word(added)) + FIXED_1 / 2) / FIXED_1 == (kept + added + FIXED_1 / 2) / FIXED_1
      <==> kept + added + FIXED_1 / 2 < WORD
  {
    hide Word;
    AddWord(kept, Word(added));
    AddWord(added, kept);
    AddWord(kept + added, FIXED_1 / 2);
    WrapShows(kept + added + FIXED_1 / 2);
  }

  lemma {:induction false} AddWord(a: nat, b: nat)
    ensures Word(Word(a) + b) == Word(a + b)
  {
  }

  lemma {:induction false} WrapShows(x: nat)
    ensures Word(x) / FIXED_1 == x / FIXED_1 <==> x < WORD
  {
  }

  lemma {:induction false} Total(x: nat, exp: nat)
    requires exp <= FIXED_1
    ensures x * exp + x * (FIXED_1 - exp) == x * FIXED_1
  {
  }

  lemma {:induction false} Rounds(a: nat, lo: nat, hi: nat)
    requires lo * FIXED_1 <= a <= hi * FIXED_1
    ensures lo <= (a + FIXED_1 / 2) / FIXED_1 <= hi
  {
  }

  /** calc_load_n. */
  method CalcLoadN(load: nat, exp: nat, active: nat, n: nat) returns (r: nat)
    requires exp <= FIXED_1
    ensures Min(load, active) <= r <= Max(load, active)
    ensures CloseToIdeal(r, load, exp, active, n)
  {
    Pow2Of11();
    hide Pow2, Pow, Mul, Abs, CalcLoad, Ideal;
    var p := FixedPowerInt(exp, FSHIFT, n);
    r := CalcLoad(load, p, active);
    CalcLoadStays(load, p, active);
    CalcLoadNear(load, exp, active, n, p);
  }

  lemma {:induction false} Pow2Of11()
    ensures Pow2(FSHIFT) == FIXED_1
  {
    assert Pow2(4) == 16;
    assert Pow2(7) == 8 * Pow2(4);
    assert Pow2(9) == 4 * Pow2(7);
    assert Pow2(11) == 4 * Pow2(9);
  }

  // ----- the geometric series -----

  /** n steps of a' = a * e + active * (1 - e), without rounding. */
  function Ideal(load: real, e: real, active: real, n: nat): real {
    if n == 0 then load else Mul(Ideal(load, e, active, n - 1), e) + Mul(active, 1.0 - e)
  }

  /** `r` is n ideal steps away from `load`, give or take |load - active| * n / (2 * FIXED_1) and half a unit. */
  ghost predicate CloseToIdeal(r: nat, load: nat, exp: nat, active: nat, n: nat) {
    Abs(r as real - Ideal(load as real, exp as real / FIXED_1 as real, active as real, n))
      <= Mul(Abs(load as real - active as real), n as real / (2 * FIXED_1) as real) + 0.5
  }

  /** The closed form that calc_load_n relies on. */
  lemma {:induction false} ClosedForm(load: real, e: real, active: real, n: nat)
    ensures Ideal(load, e, active, n) == active + Mul(load - active, Pow(e, n))
  {
    if n > 0 {
      ClosedForm(load, e, active, n - 1);
      ClosedStep(load - active, Pow(e, n - 1), e, active);
    }
  }

  lemma {:induction false} ClosedStep(d: real, p: real, e: real, active: real)
    ensures Mul(active + Mul(d, p), e) + Mul(active, 1.0 - e) == active + Mul(d, e * p)
  {
  }

  /** With the power off by at most n/2, one rounded step is close to n ideal ones. */
  lemma {:induction false} CalcLoadNear(load: nat, exp: nat, active: nat, n: nat, p: nat)
    requires exp <= FIXED_1 && p <= FIXED_1
    requires Abs(p as real - Mul(FIXED_1 as real, Pow(exp as real / FIXED_1 as real, n))) <= n as real / 2.0
    ensures CloseToIdeal(CalcLoad(load, p, active), load, exp, active, n)
  {
    var e, d, u := exp as real / FIXED_1 as real, load as real - active as real, FIXED_1 as real;
    var r, q := CalcLoad(load, p, active) as real, Pow(e, n);
    ClosedForm(load as real, e, active as real, n);
    CalcLoadIs(load, p, active);
    hide Mul, Pow, CalcLoad, Ideal;
    assert Abs(Mul(u, r - active as real) - Mul(d, p as real)) <= u / 2.0;
    // d*p - u*(d*q) == d*(p - u*q)
    Factor(u, d, p as real, q);
    SymmetricBound(d, p as real - Mul(u, q), n as real / 2.0);
    Distributes(u, r - active as real, Mul(d, q));
    ScaleDown(u, Abs(d), n as real);
    var err := r - active as real - Mul(d, q);
    assert Abs(Mul(u, err)) <= Mul(Abs(d), n as real / 2.0) + u / 2.0;
    Distributes(u, Mul(Abs(d), n as real / (2 * FIXED_1) as real), 0.5);
    HalfIs(u);
    Cancels(u, err, Mul(Abs(d), n as real / (2 * FIXED_1) as real) + 0.5);
  }

  lemma {:induction false} HalfIs(u: real)
    ensures Mul(u, 0.5) == u / 2.0
  {
  }

  lemma {:induction false} Factor(u: real, d: real, p: real, q: real)
    ensures Mul(d, p) - Mul(u, Mul(d, q)) == Mul(d, p - Mul(u, q))
  {
  }

  lemma {:induction false} SymmetricBound(d: real, x: real, b: real)
    requires Abs(x) <= b
    ensures Abs(Mul(d, x)) <= Mul(Abs(d), b)
  {
    BoundedProduct(Abs(d), Abs(d), x, b);
  }

  lemma {:induction false} ScaleDown(u: real, d: real, n: real)
    requires u == FIXED_1 as real
    ensures Mul(u, Mul(d, n / (2 * FIXED_1) as real)) == Mul(d, n / 2.0)
  {
    assert u * (n / (2 * FIXED_1) as real) == n / 2.0;
  }

  /** The rounding of calc_load, over the reals. */
  lemma {:induction false} CalcLoadIs(load: nat, p: nat, active: nat)
    requires p <= FIXED_1
    ensures Abs(Mul(FIXED_1 as real, CalcLoad(load, p, active) as real - active as real)
                - Mul(load as real - active as real, p as real)) <= FIXED_1 as real / 2.0
  {
    var a: nat, b: nat, r := load * p, active * (FIXED_1 - p), CalcLoad(load, p, active);
    assert FIXED_1 * r <= a + b + FIXED_1 / 2 < FIXED_1 * r + FIXED_1;
    CastProduct(load, p);
    CastProduct(active, p);
    assert b == active * FIXED_1 - active * p;
    assert (active * p) as real == Mul(active as real, p as real) && (load * p) as real == Mul(load as real, p as real);
    var x, y, z := load as real, active as real, p as real;
    assert Mul(x - y, z) == Mul(x, z) - Mul(y, z);
  }

  // ----- calc_global_load -----

  const HZ: nat := 100
  const LOAD_FREQ: nat := 5 * HZ + 1

  /** What a count of active tasks contributes as a sample. */
  function Sample(tasks: int): nat {
    if tasks > 0 then tasks * FIXED_1 else 0
  }

  /** A steady count of active tasks is read back as that number, with nothing behind the point; a negative one, which
      the distributed sum may give, as none. */
  lemma {:induction false} SampleReadsBack(tasks: int, exp: nat)
    requires exp <= FIXED_1
    ensures tasks >= 0 ==> Sample(tasks) / FIXED_1 == tasks && Sample(tasks) % FIXED_1 == 0
    ensures tasks < 0 ==> Sample(tasks) == 0
    ensures CalcLoad(Sample(tasks), exp, Sample(tasks)) == Sample(tasks)
  {
    hide CalcLoad;
    CalcLoadStays(Sample(tasks), exp, Sample(tasks));
  }

  /** The decay of each of the three averages. */
  function Exp(i: nat): (e: nat)
    ensures e <= FIXED_1
  {
    if i == 0 then EXP_1 else if i == 1 then EXP_5 else EXP_15
  }

  /** The decays are those of one, five and fifteen minutes, of twelve windows each: to the nearest fixed-point number,
      the 12th, 60th and 180th root of 1/e = 0.3678794... */
  lemma {:induction false} DecaysAreNearest(i: nat)
    requires i < 3
    ensures var n := 12 * if i == 0 then 1 else if i == 1 then 5 else 15;
      && Pow((Exp(i) as real - 0.5) / FIXED_1 as real, n) < 0.367879
      && Pow((Exp(i) as real + 0.5) / FIXED_1 as real, n) > 0.367880
  {
    if i == 0 {
      Decay1Below();
      Decay1Above();
    } else if i == 1 {
      Decay5Below();
      Decay5Above();
    } else {
      Decay15Below();
      Decay15Above();
    }
  }

  lemma {:induction false} PowOne(x: real, lo: real, hi: real)
    requires lo <= x <= hi
    ensures lo <= Pow(x, 1) <= hi
  {
    assert Pow(x, 0) == 1.0;
  }

  lemma {:induction false} Twice(x: real, n: nat, lo: real, hi: real, lo2: real, hi2: real)
    requires 0.0 <= lo <= Pow(x, n) <= hi && lo2 <= lo * lo && hi * hi <= hi2
    ensures lo2 <= Pow(x, 2 * n) <= hi2
  {
    var p := Pow(x, n);
    PowAdd(x, n, n);
    hide Pow;
    Between(lo, p, hi, lo, p, hi);
  }

  lemma {:induction false} OnceMore(x: real, n: nat, lo: real, hi: real, lo2: real, hi2: real)
    requires 0.0 <= lo <= Pow(x, n) <= hi && 0.0 <= x && lo2 <= x * lo && x * hi <= hi2
    ensures lo2 <= Pow(x, n + 1) <= hi2
  {
    PowStep(x, n);
    var p := Pow(x, n);
    hide Pow;
    Between(x, x, x, lo, p, hi);
  }

  lemma {:induction false} Between(a: real, x: real, b: real, c: real, y: real, d: real)
    requires 0.0 <= a <= x <= b && 0.0 <= c <= y <= d
    ensures a * c <= Mul(x, y) <= b * d
  {
    assert a * c <= x * c <= x * y <= x * d <= b * d;
  }

  lemma {:induction false} Decay1Below()
    ensures Pow(1883.5 / 2048.0, 12) < 0.367879
  {
    hide Pow;
    var x := 1883.5 / 2048.0;
    PowOne(x, 0.919677, 0.919678);
    Twice(x, 1, 0.919677, 0.919678, 0.845805, 0.845808);
    OnceMore(x, 2, 0.845805, 0.845808, 0.777868, 0.777871);
    Twice(x, 3, 0.777868, 0.777871, 0.605078, 0.605084);
    Twice(x, 6, 0.605078, 0.605084, 0.366119, 0.366127);
  }

  lemma {:induction false} Decay1Above()
    ensures Pow(1884.5 / 2048.0, 12) > 0.367880
  {
    hide Pow;
    var x := 1884.5 / 2048.0;
    PowOne(x, 0.920166, 0.920167);
    Twice(x, 1, 0.920166, 0.920167, 0.846705, 0.846708);
    OnceMore(x, 2, 0.846705, 0.846708, 0.779109, 0.779112);
    Twice(x, 3, 0.779109, 0.779112, 0.607010, 0.607016);
    Twice(x, 6, 0.607010, 0.607016, 0.368461, 0.368469);
  }

  lemma {:induction false} Decay5Below()
    ensures Pow(2013.5 / 2048.0, 60) < 0.367879
  {
    hide Pow;
    var x := 2013.5 / 2048.0;
    PowOne(x, 0.983154, 0.983155);
    Twice(x, 1, 0.983154, 0.983155, 0.966591, 0.966594);
    OnceMore(x, 2, 0.966591, 0.966594, 0.950308, 0.950312);
    Twice(x, 3, 0.950308, 0.950312, 0.903085, 0.903093);
    OnceMore(x, 6, 0.903085, 0.903093, 0.887871, 0.887880);
    Twice(x, 7, 0.887871, 0.887880, 0.788314, 0.788331);
    OnceMore(x, 14, 0.788314, 0.788331, 0.775034, 0.775052);
    Twice(x, 15, 0.775034, 0.775052, 0.600677, 0.600706);
    Twice(x, 30, 0.600677, 0.600706, 0.360812, 0.360848);
  }

  lemma {:induction false} Decay5Above()
    ensures Pow(2014.5 / 2048.0, 60) > 0.367880
  {
    hide Pow;
    var x := 2014.5 / 2048.0;
    PowOne(x, 0.983642, 0.983643);
    Twice(x, 1, 0.983642, 0.983643, 0.967551, 0.967554);
    OnceMore(x, 2, 0.967551, 0.967554, 0.951724, 0.951728);
    Twice(x, 3, 0.951724, 0.951728, 0.905778, 0.905787);
    OnceMore(x, 6, 0.905778, 0.905787, 0.890961, 0.890971);
    Twice(x, 7, 0.890961, 0.890971, 0.793811, 0.793830);
    OnceMore(x, 14, 0.793811, 0.793830, 0.780826, 0.780845);
    Twice(x, 15, 0.780826, 0.780845, 0.609689, 0.609719);
    Twice(x, 30, 0.609689, 0.609719, 0.371720, 0.371758);
  }

  lemma {:induction false} Decay15Below()
    ensures Pow(2036.5 / 2048.0, 180) < 0.367879
  {
    hide Pow;
    var x := 2036.5 / 2048.0;
    PowOne(x, 0.994384, 0.994385);
    Twice(x, 1, 0.994384, 0.994385, 0.988799, 0.988802);
    Twice(x, 2, 0.988799, 0.988802, 0.977723, 0.977730);
    OnceMore(x, 4, 0.977723, 0.977730, 0.972232, 0.972240);
    Twice(x, 5, 0.972232, 0.972240, 0.945235, 0.945251);
    OnceMore(x, 10, 0.945235, 0.945251, 0.939927, 0.939944);
    Twice(x, 11, 0.939927, 0.939944, 0.883462, 0.883495);
    Twice(x, 22, 0.883462, 0.883495, 0.780505, 0.780564);
    OnceMore(x, 44, 0.780505, 0.780564, 0.776122, 0.776181);
    Twice(x, 45, 0.776122, 0.776181, 0.602365, 0.602457);
    Twice(x, 90, 0.602365, 0.602457, 0.362843, 0.362955);
  }

  lemma {:induction false} Decay15Above()
    ensures Pow(2037.5 / 2048.0, 180) > 0.367880
  {
    hide Pow;
    var x := 2037.5 / 2048.0;
    PowOne(x, 0.994873, 0.994874);
    Twice(x, 1, 0.994873, 0.994874, 0.989772, 0.989775);
    Twice(x, 2, 0.989772, 0.989775, 0.979648, 0.979655);
    OnceMore(x, 4, 0.979648, 0.979655, 0.974625, 0.974633);
    Twice(x, 5, 0.974625, 0.974633, 0.949893, 0.949910);
    OnceMore(x, 10, 0.949893, 0.949910, 0.945022, 0.945040);
    Twice(x, 11, 0.945022, 0.945040, 0.893066, 0.893101);
    Twice(x, 22, 0.893066, 0.893101, 0.797566, 0.797630);
    OnceMore(x, 44, 0.797566, 0.797630, 0.793476, 0.793541);
    Twice(x, 45, 0.793476, 0.793541, 0.629604, 0.629708);
    Twice(x, 90, 0.629604, 0.629708, 0.396401, 0.396533);
  }

  /** A call of calc_global_load, with the counts that its two steps read. */
  datatype Call = Call(jiffies: nat, tasks: int, tasksLater: int)

  ghost predicate Bounded(call: Call, lo: nat, hi: nat) {
    lo <= Sample(call.tasks) <= hi && lo <= Sample(call.tasksLater) <= hi
  }

  class Averages {
    var avenrun: array<nat>
    var update: nat
    var idx: nat

    constructor (update: nat)
      ensures Valid() && fresh(avenrun) && this.update == update && avenrun[0] == avenrun[1] == avenrun[2] == 0
    {
      avenrun := new nat[3](_ => 0);
      this.update, idx := update, 0;
    }

    ghost predicate Valid() reads this { avenrun.Length == 3 }

    /** Fold one sample, standing for `n` missed windows, into all averages. */
    method FoldIn(active: nat, n: nat)
      requires Valid()
      modifies avenrun
      ensures forall i :: 0 <= i < 3 ==> Min(old(avenrun[i]), active) <= avenrun[i] <= Max(old(avenrun[i]), active)
      ensures forall i :: 0 <= i < 3 ==> CloseToIdeal(avenrun[i], old(avenrun[i]), Exp(i), active, n)
    {
      hide CloseToIdeal;
      var a := CalcLoadN(avenrun[0], EXP_1, active, n);
      var b := CalcLoadN(avenrun[1], EXP_5, active, n);
      var c := CalcLoadN(avenrun[2], EXP_15, active, n);
      avenrun[0], avenrun[1], avenrun[2] := a, b, c;
    }

    /** Fold one sample, of one window, into all averages. */
    method FoldOnce(active: nat)
      requires Valid()
      modifies avenrun
      ensures forall i :: 0 <= i < 3 ==> Min(old(avenrun[i]), active) <= avenrun[i] <= Max(old(avenrun[i]), active)
      ensures forall i :: 0 <= i < 3 ==> avenrun[i] == CalcLoad(old(avenrun[i]), Exp(i), active)
    {
      hide CalcLoad;
      CalcLoadStays(avenrun[0], EXP_1, active);
      CalcLoadStays(avenrun[1], EXP_5, active);
      CalcLoadStays(avenrun[2], EXP_15, active);
      avenrun[0], avenrun[1], avenrun[2] :=
        CalcLoad(avenrun[0], EXP_1, active), CalcLoad(avenrun[1], EXP_5, active), CalcLoad(avenrun[2], EXP_15, active);
    }

    /** calc_global_nohz. */
    method CalcGlobalNohz(jiffies: nat, tasks: int) returns (windows: nat)
      requires Valid()
      modifies this, avenrun
      ensures avenrun == old(avenrun) && idx == old(idx) + 1
      ensures forall i :: 0 <= i < 3 ==>
        Min(old(avenrun[i]), Sample(tasks)) <= avenrun[i] <= Max(old(avenrun[i]), Sample(tasks))
      ensures forall i :: 0 <= i < 3 ==>
        if windows == 0 then avenrun[i] == old(avenrun[i])
        else CloseToIdeal(avenrun[i], old(avenrun[i]), Exp(i), Sample(tasks), windows)
      ensures jiffies < update + 10 && update == old(update) + windows * LOAD_FREQ
      ensures windows == 0 || update + 10 <= jiffies + LOAD_FREQ
    {
      hide CloseToIdeal;
      windows := 0;
      if jiffies >= update + 10 {
        var delta := jiffies - update - 10;
        windows := 1 + delta / LOAD_FREQ;
        FoldIn(Sample(tasks), windows);
        update := update + windows * LOAD_FREQ;
      }
      idx := idx + 1;
    }

    /** calc_global_load: `tasks` and `tasksLater` are the counts read by the two steps. The averages
        stay between their old values and the samples, and the update time is caught up, in whole
        windows and no further than needed. */
    method CalcGlobalLoad(jiffies: nat, tasks: int, tasksLater: int) returns (windows: nat)
      requires Valid()
      modifies this, avenrun
      ensures avenrun == old(avenrun)
      ensures forall i :: 0 <= i < 3 ==>
        && Min(old(avenrun[i]), Min(Sample(tasks), Sample(tasksLater))) <= avenrun[i]
        && avenrun[i] <= Max(old(avenrun[i]), Max(Sample(tasks), Sample(tasksLater)))
      ensures jiffies < update + 10 && update == old(update) + windows * LOAD_FREQ
      ensures windows == 0 || update + 10 <= jiffies + LOAD_FREQ
      ensures windows == 1 ==> forall i :: 0 <= i < 3 ==> avenrun[i] == CalcLoad(old(avenrun[i]), Exp(i), Sample(tasks))
      ensures windows > 1 ==> forall i :: 0 <= i < 3 ==>
        CloseToIdeal(avenrun[i], CalcLoad(old(avenrun[i]), Exp(i), Sample(tasks)),
                     Exp(i), Sample(tasksLater), windows - 1)
      ensures jiffies < old(update) + 10 ==> update == old(update) && idx == old(idx) && avenrun[..] == old(avenrun[..])
      ensures jiffies >= old(update) + 10 ==> idx == old(idx) + 1
    {
      hide CalcLoad, Sample, CloseToIdeal;
      if jiffies < update + 10 { return 0; }
      FoldOnce(Sample(tasks));
      update := update + LOAD_FREQ;
      var behind := CalcGlobalNohz(jiffies, tasksLater);
      windows := 1 + behind;
    }

    /** Any sequence of calls: the averages stay between bounds on their first values and on both samples of every
        call, and the update time stays on its grid, caught up with every call and no further than one of them needs. */
    method RunUpdates(calls: seq<Call>, ghost lo: nat, ghost hi: nat) returns (windows: nat)
      requires Valid() && forall i :: 0 <= i < 3 ==> lo <= avenrun[i] <= hi
      requires forall k :: 0 <= k < |calls| ==> Bounded(calls[k], lo, hi)
      modifies this, avenrun
      ensures avenrun == old(avenrun) && forall i :: 0 <= i < 3 ==> lo <= avenrun[i] <= hi
      ensures update == old(update) + windows * LOAD_FREQ
      ensures forall k :: 0 <= k < |calls| ==> calls[k].jiffies < update + 10
      ensures windows > 0 ==> exists k :: 0 <= k < |calls| && update + 10 <= calls[k].jiffies + LOAD_FREQ
    {
      hide Sample, CloseToIdeal, CalcLoad;
      windows := 0;
      for n := 0 to |calls|
        invariant avenrun == old(avenrun) && forall i :: 0 <= i < 3 ==> lo <= avenrun[i] <= hi
        invariant update == old(update) + windows * LOAD_FREQ
        invariant forall k :: 0 <= k < n ==> calls[k].jiffies < update + 10
        invariant windows > 0 ==> exists k :: 0 <= k < n && update + 10 <= calls[k].jiffies + LOAD_FREQ
      {
        assert Bounded(calls[n], lo, hi);
        var more := CalcGlobalLoad(calls[n].jiffies, calls[n].tasks, calls[n].tasksLater);
        windows := windows + more;
      }
    }
  }
}
