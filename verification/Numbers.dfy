/** Equality of JSON numbers across integers and binary64, crates/rettp-assertion/src/engine.rs:540-567. */
module Numbers {
  import opened Wrappers
  import opened JsonValues

  /** 2^53 - 1: section 6 of RFC 8259 calls integers up to this magnitude interoperable. */
  const MAX_EXACT_FLOAT_INTEGER: int := 9_007_199_254_740_991

  /** One more than the largest integer significand of binary64, 2^53. */
  const SIGNIFICANDS: int := 9_007_199_254_740_992

  predicate IsInteger(number: Number) {
    number.Int?
  }

  // ---- conversion of integers to binary64 ----

  /** The distance of neighbouring floats around an integer: the power of two that leaves it 53 significant bits. */
  function Spacing(m: nat): (r: nat)
    ensures r > 0
    ensures m < SIGNIFICANDS ==> r == 1
  {
    if m < SIGNIFICANDS then 1 else 2 * Spacing(m / 2)
  }

  /** What `m` lies above the multiple of `s` below it. */
  function Excess(m: nat, s: nat): (r: nat)
    requires s > 0
    ensures r <= m && r < s
  {
    if m < s then m else m % s
  }

  /** Rounding to 53 significant bits, to the nearest and in a tie to the even significand. */
  function Rounded(m: nat): nat {
    var s := Spacing(m);
    var excess := Excess(m, s);
    if 2 * excess < s || (2 * excess == s && m / s % 2 == 0) then m - excess else m - excess + s
  }

  function AsFloat(n: int): real {
    if n >= 0 then Rounded(n) as real else -(Rounded(-n) as real)
  }

  /** Of magnitude at most `bound`. */
  predicate Within(n: int, bound: int) {
    -bound <= n <= bound
  }

  /** Integers beyond the bound have no float to compare. */
  function SafeIntegerAsFloat(n: int, bound: int): Option<real> {
    if Within(n, bound) then Some(AsFloat(n)) else None
  }

  /** Equality with the bound left open. */
  predicate EqualWithin(bound: int, expected: Number, actual: Number) {
    match (expected, actual)
    case (Int(e), Int(a)) => e == a
    case (Int(e), Float(a)) => SafeIntegerAsFloat(e, bound) == Some(a)
    case (Float(e), Int(a)) => SafeIntegerAsFloat(a, bound) == Some(e)
    case (Float(e), Float(a)) => e == a
  }

  predicate NumbersEqual(expected: Number, actual: Number) {
    EqualWithin(MAX_EXACT_FLOAT_INTEGER, expected, actual)
  }

  // ---- the conversion is correct rounding ----

  /** Integers that are floats: multiples of the spacing around them. */
  predicate Representable(m: nat) {
    m % Spacing(m) == 0
  }

  /** The significand has 53 bits, the top one set unless the integer is small. */
  lemma {:induction false} SignificandFits(m: nat)
    ensures m / Spacing(m) < SIGNIFICANDS
    ensures m >= SIGNIFICANDS ==> SIGNIFICANDS <= 2 * (m / Spacing(m)) && Spacing(m) % 2 == 0
  {
    if m >= SIGNIFICANDS {
      SignificandFits(m / 2);
      HalvedQuotient(m, Spacing(m / 2));
    }
  }

  lemma HalvedQuotient(m: nat, s: nat)
    requires s > 0
    ensures m / (2 * s) == m / 2 / s
  {
    var q, r := m / 2 / s, m / 2 % s;
    assert m / 2 == q * s + r;
    assert m == q * (2 * s) + (2 * r + m % 2);
    QuotientIs(m, 2 * s, q, 2 * r + m % 2);
  }

  lemma QuotientIs(m: nat, s: nat, q: nat, r: nat)
    requires m == q * s + r && r < s
    ensures m / s == q && m % s == r
  {
    var d := m / s - q;
    assert m == m / s * s + m % s;
    assert d * s == m / s * s - q * s;
    assert d * s == r - m % s;
    ProductIsFar(d, s);
  }

  lemma ProductIsFar(d: int, s: nat)
    ensures d >= 1 ==> d * s >= s
    ensures d <= -1 ==> d * s + s <= 0
  {
    if d >= 1 {
      assert (d - 1) * s >= 0;
    } else if d <= -1 {
      assert (-1 - d) * s >= 0;
    }
  }

  lemma DoubledProduct(q: nat, s: nat)
    requires s > 0
    ensures q * (2 * s) == 2 * (q * s) && 2 * (q * s) / 2 == q * s >= q
  {
    assert q * (s - 1) >= 0;
  }

  /** Multiples of a spacing that still have 53 significant bits keep it; the next power of two doubles it. */
  lemma {:induction false} ScaledSpacing(m: nat, q: nat)
    requires q <= SIGNIFICANDS && (m >= SIGNIFICANDS ==> SIGNIFICANDS <= 2 * q)
    ensures Spacing(q * Spacing(m)) == if q == SIGNIFICANDS then 2 * Spacing(m) else Spacing(m)
    decreases m
  {
    if m >= SIGNIFICANDS {
      var s := Spacing(m / 2);
      ScaledSpacing(m / 2, q);
      DoubledProduct(q, s);
    }
  }

  lemma {:induction false} SameSpacing(a: nat, b: nat)
    requires a / Spacing(a) == b / Spacing(a)
    ensures Spacing(a) == Spacing(b)
    decreases a
  {
    if a >= SIGNIFICANDS {
      var s := Spacing(a / 2);
      HalvedQuotient(a, s);
      HalvedQuotient(b, s);
      SignificandFits(a);
      var q := a / (2 * s);
      assert b >= q * (2 * s);
      DoubledProduct(q, s);
      SameSpacing(a / 2, b / 2);
    }
  }

  /** The floats around an integer: below or equal, and above. */
  function FloatBelow(m: nat): nat {
    m - Excess(m, Spacing(m))
  }

  function FloatAbove(m: nat): nat {
    FloatBelow(m) + Spacing(m)
  }

  lemma NeighboursAreMultiples(m: nat)
    ensures FloatBelow(m) == m / Spacing(m) * Spacing(m)
    ensures FloatAbove(m) == (m / Spacing(m) + 1) * Spacing(m)
  {
    hide Spacing;
    var s, q := Spacing(m), m / Spacing(m);
    assert m == q * s + m % s;
    assert (q + 1) * s == q * s + s;
  }

  lemma NeighboursAreFloats(m: nat)
    ensures Representable(FloatBelow(m)) && Representable(FloatAbove(m))
  {
    hide Spacing;
    hide Representable;
    SignificandFits(m);
    NeighboursAreMultiples(m);
    MultiplesAreFloats(m, m / Spacing(m));
    MultiplesAreFloats(m, m / Spacing(m) + 1);
  }

  lemma MultiplesAreFloats(m: nat, q: nat)
    requires q <= SIGNIFICANDS && (m >= SIGNIFICANDS ==> SIGNIFICANDS <= 2 * q)
    ensures Representable(q * Spacing(m))
  {
    hide Spacing;
    ScaledSpacing(m, q);
    MultiplesDivide(q, Spacing(m));
  }

  lemma MultiplesDivide(q: nat, s: nat)
    requires s > 0
    ensures q * s % s == 0
    ensures q % 2 == 0 ==> q * s % (2 * s) == 0
  {
    QuotientIs(q * s, s, q, 0);
    if q % 2 == 0 {
      var half := q / 2;
      assert q * s == 2 * half * s == half * (2 * s);
      QuotientIs(q * s, 2 * s, half, 0);
    }
  }

  lemma NoFloatBetween(m: nat, v: nat)
    requires Representable(v)
    ensures v <= FloatBelow(m) || v >= FloatAbove(m)
  {
    hide Spacing;
    var s, q := Spacing(m), m / Spacing(m);
    NeighboursAreMultiples(m);
    if FloatBelow(m) < v < FloatAbove(m) {
      QuotientIs(v, s, q, v - q * s);
      SameSpacing(m, v);
    }
  }

  function Distance(a: nat, b: nat): nat {
    if a <= b then b - a else a - b
  }

  /** Rounding yields a float, no float is nearer, and of two equally near ones it is the one with even significand. */
  lemma RoundingIsCorrect(m: nat, v: nat)
    ensures Representable(Rounded(m))
    ensures Representable(v) ==> Distance(Rounded(m), m) <= Distance(v, m)
    ensures Representable(v) && v != Rounded(m) && Distance(Rounded(m), m) == Distance(v, m) ==>
              Rounded(m) / Spacing(m) % 2 == 0
  {
    hide Spacing;
    hide Representable;
    NeighboursAreFloats(m);
    RoundedToNearer(m);
    if Representable(v) {
      NoFloatBetween(m, v);
    }
  }

  lemma RoundedToNearer(m: nat)
    ensures var below, above := FloatBelow(m), FloatAbove(m);
            && (Rounded(m) == below || Rounded(m) == above)
            && (m - below < above - m ==> Rounded(m) == below)
            && (m - below > above - m ==> Rounded(m) == above)
            && (m - below == above - m ==> Rounded(m) / Spacing(m) % 2 == 0)
  {
    hide Spacing;
    var s, q := Spacing(m), m / Spacing(m);
    NeighboursAreMultiples(m);
    QuotientIs(q * s, s, q, 0);
    QuotientIs((q + 1) * s, s, q + 1, 0);
  }

  lemma RoundingIsMonotone(m: nat, n: nat)
    requires m <= n
    ensures Rounded(m) <= Rounded(n)
  {
    hide Rounded;
    hide Representable;
    RoundingIsCorrect(m, Rounded(n));
    RoundingIsCorrect(n, Rounded(m));
  }

  /** All integers up to 2^53 are floats. */
  lemma SmallIntegersAreExact(n: int)
    requires Within(n, SIGNIFICANDS)
    ensures AsFloat(n) == n as real
  {
    assert Spacing(SIGNIFICANDS) == 2;
  }

  lemma ConversionIsMonotone(m: int, n: int)
    requires m <= n
    ensures AsFloat(m) <= AsFloat(n)
  {
    if m >= 0 {
      RoundingIsMonotone(m, n);
    } else if n < 0 {
      RoundingIsMonotone(-n, -m);
    }
  }

  /** Within the bound a float stands for one integer only, however large the others. */
  lemma BoundedFloatsAreUnambiguous(n: int, m: int)
    requires Within(n, MAX_EXACT_FLOAT_INTEGER)
    ensures AsFloat(n) == n as real && (AsFloat(m) == AsFloat(n) ==> m == n)
  {
    SmallIntegersAreExact(n);
    SmallIntegersAreExact(SIGNIFICANDS);
    SmallIntegersAreExact(-SIGNIFICANDS);
    if m > SIGNIFICANDS {
      ConversionIsMonotone(SIGNIFICANDS, m);
    } else if m < -SIGNIFICANDS {
      ConversionIsMonotone(m, -SIGNIFICANDS);
    } else {
      SmallIntegersAreExact(m);
    }
  }

  /** The first integer that is no float is rounded to the one before it. */
  lemma FirstCollision()
    ensures AsFloat(SIGNIFICANDS) == AsFloat(SIGNIFICANDS + 1) == SIGNIFICANDS as real
  {
    SmallIntegersAreExact(SIGNIFICANDS);
    assert Spacing(SIGNIFICANDS + 1) == 2;
  }

  // ---- equality ----

  /** The number itself, without any representation. */
  function Exact(number: Number): real {
    match number
    case Int(n) => n as real
    case Float(value) => value
  }

  /** The decision in one formula: equal as numbers, and not a huge integer against a float. */
  lemma NumbersEqualMeaning(a: Number, b: Number)
    ensures NumbersEqual(a, b) <==>
            && Exact(a) == Exact(b)
            && (a.Int? != b.Int? ==>
                  -MAX_EXACT_FLOAT_INTEGER as real <= Exact(a) <= MAX_EXACT_FLOAT_INTEGER as real)
  {
    hide AsFloat;
    var bound: int := MAX_EXACT_FLOAT_INTEGER;
    match (a, b)
    case (Int(x), Int(y)) => assert x as real == y as real <==> x == y;
    case (Int(x), Float(_)) =>
      assert -bound as real <= x as real <= bound as real <==> Within(x, bound);
      if Within(x, bound) {
        SmallIntegersAreExact(x);
      }
    case (Float(_), Int(y)) =>
      assert -bound as real <= y as real <= bound as real <==> Within(y, bound);
      if Within(y, bound) {
        SmallIntegersAreExact(y);
      }
    case (Float(_), Float(_)) =>
  }

  lemma NumbersEqualIsEquivalence(a: Number, b: Number, c: Number)
    ensures NumbersEqual(a, a)
    ensures NumbersEqual(a, b) ==> NumbersEqual(b, a)
    ensures NumbersEqual(a, b) && NumbersEqual(b, c) ==> NumbersEqual(a, c)
  {
    hide EqualWithin;
    NumbersEqualMeaning(a, a);
    NumbersEqualMeaning(a, b);
    NumbersEqualMeaning(b, a);
    NumbersEqualMeaning(b, c);
    NumbersEqualMeaning(a, c);
  }

  // ---- why the bound is where it is ----

  ghost predicate Related(bound: int, m: JsonInt, n: JsonInt) {
    exists value: real :: EqualWithin(bound, Int(m), Float(value)) && EqualWithin(bound, Float(value), Int(n))
  }

  ghost predicate Transitive(bound: int) {
    forall a: Number, b: Number, c: Number ::
      EqualWithin(bound, a, b) && EqualWithin(bound, b, c) ==> EqualWithin(bound, a, c)
  }

  /** Two integers are equal to one float iff both are within the bound and are rounded alike. */
  lemma RelatedMeansRoundedAlike(bound: int, m: JsonInt, n: JsonInt)
    ensures Related(bound, m, n) <==> Within(m, bound) && Within(n, bound) && AsFloat(m) == AsFloat(n)
  {
    hide AsFloat;
    if Within(m, bound) && Within(n, bound) && AsFloat(m) == AsFloat(n) {
      assert EqualWithin(bound, Int(m), Float(AsFloat(m))) && EqualWithin(bound, Float(AsFloat(m)), Int(n));
    }
  }

  /** Equality under a bound is transitive up to 2^53 and for no larger bound. */
  lemma TransitivityIsExact(bound: int)
    ensures Transitive(bound) <==> bound <= SIGNIFICANDS
  {
    hide AsFloat;
    if bound <= SIGNIFICANDS {
      forall a: Number, b: Number, c: Number | EqualWithin(bound, a, b) && EqualWithin(bound, b, c)
        ensures EqualWithin(bound, a, c)
      {
        TransitiveStep(bound, a, b, c);
      }
    } else {
      FirstCollision();
      var m, value, n := Int(SIGNIFICANDS), Float(SIGNIFICANDS as real), Int(SIGNIFICANDS + 1);
      assert EqualWithin(bound, m, value) && EqualWithin(bound, value, n) && !EqualWithin(bound, m, n);
    }
  }

  lemma TransitiveStep(bound: int, a: Number, b: Number, c: Number)
    requires bound <= SIGNIFICANDS && EqualWithin(bound, a, b) && EqualWithin(bound, b, c)
    ensures EqualWithin(bound, a, c)
  {
    hide AsFloat;
    if a.Int? && b.Float? && c.Int? {
      SmallIntegersAreExact(a.n);
      SmallIntegersAreExact(c.n);
    }
  }

  ghost predicate Unambiguous(bound: int) {
    forall n: JsonInt, m: JsonInt | Within(n, bound) && AsFloat(m) == AsFloat(n) :: m == n
  }

  /** 2^53 - 1 is the largest bound within which no float stands for a second integer, inside or outside the bound. */
  lemma BoundIsTheLargest(bound: int)
    ensures Unambiguous(bound) <==> bound <= MAX_EXACT_FLOAT_INTEGER
  {
    hide AsFloat;
    if bound <= MAX_EXACT_FLOAT_INTEGER {
      forall n: JsonInt, m: JsonInt | Within(n, bound) && AsFloat(m) == AsFloat(n) ensures m == n {
        BoundedFloatsAreUnambiguous(n, m);
      }
    } else {
      FirstCollision();
      var n: JsonInt, m: JsonInt := SIGNIFICANDS, SIGNIFICANDS + 1;
      assert Within(n, bound) && AsFloat(m) == AsFloat(n);
    }
  }
}
