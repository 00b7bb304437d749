/** Checked multiply-then-divide with a 256-bit intermediate product. */
module WideMath {
  import opened Numbers
  import opened Nonlinear

  datatype RiskError =
    | MathOverflow
    | DivisionByZero
    | NegativeAmount
    | InvalidPrice
    | ZeroSize
    | InvalidBasisPoints
    | EmptyPool
    | InvalidMarginParameters
    | StalePrice
    | ConfidenceTooWide
    | PriceOutOfBand
    | UnexpectedExponent
    | PriceFromTheFuture
    | GuardsNotOrdered

  datatype Ordering = Less | Equal | Greater

  // ---- What the operations mean, over unbounded integers ----

  function CheckedU128(x: int): (r: Result<u128, RiskError>) {
    if 0 <= x < U128_LIMIT then Success(x) else Failure(MathOverflow)
  }

  function CheckedI128(x: int): (r: Result<i128, RiskError>) {
    if -I128_LIMIT <= x < I128_LIMIT then Success(x) else Failure(MathOverflow)
  }

  function CeilDiv(n: int, d: int): int
    requires 0 < d
  {
    -(-n / d)
  }

  lemma CeilDivBounds(n: int, d: int)
    requires 0 < d
    ensures CeilDiv(n, d) * d - d < n <= CeilDiv(n, d) * d
    ensures CeilDiv(n, d) == n / d + (if n % d == 0 then 0 else 1)
  {
    DivBounds(-n, d);
    DivBounds(n, d);
    DivUnique(-n, d, -(n / d) - (if n % d == 0 then 0 else 1), if n % d == 0 then 0 else d - n % d);
  }

  /** floor(a * b / c), or the reason it has no 128-bit value. */
  function FloorMulDiv(a: u128, b: u128, c: u128): Result<u128, RiskError> {
    if c == 0 then Failure(DivisionByZero) else CheckedU128(a * b / c)
  }

  /** ceil(a * b / c), or the reason it has no 128-bit value. */
  function CeilMulDiv(a: u128, b: u128, c: u128): Result<u128, RiskError> {
    if c == 0 then Failure(DivisionByZero) else CheckedU128(CeilDiv(a * b, c))
  }

  function Abs(x: int): nat {
    if x < 0 then -x else x
  }

  /** Division that truncates toward zero, for operands of any sign. */
  function TruncDiv(n: int, d: int): int
    requires d != 0
  {
    if (n < 0) == (d < 0) then Abs(n) / Abs(d) else -(Abs(n) / Abs(d))
  }

  function TruncMulDiv(a: i128, b: i128, c: i128): Result<i128, RiskError> {
    if c == 0 then Failure(DivisionByZero) else CheckedI128(TruncDiv(a * b, c))
  }

  function Compare(x: int, y: int): Ordering {
    if x < y then Less else if x == y then Equal else Greater
  }

  // ---- Powers of two, the bits of a word ----

  lemma Pow2Square(k: nat, n: nat, p: nat)
    requires n == k + k && p == Pow(2, k)
    ensures Pow(2, n) == p * p
  {
    PowSum(2, k, k);
  }

  lemma Pow2Word(n: nat)
    requires n == 128
    ensures Pow(2, n) == U128_LIMIT
  {
    assert Pow(2, 4) == 16;
    Pow2Square(4, 8, 0x10);
    Pow2Square(8, 16, 0x100);
    Pow2Square(16, 32, 0x1_0000);
    Pow2Square(32, 64, U32_LIMIT);
    Pow2Square(64, n, U64_LIMIT);
  }

  function BitAt(word: u128, i: nat): int {
    word / Pow(2, i) % 2
  }

  /** `word | 1 << i`. */
  function SetBit(word: u128, i: nat): int {
    if BitAt(word, i) == 1 then word else word + Pow(2, i)
  }

  function WrappingSub(a: u128, b: u128): u128 {
    (a - b) % U128_LIMIT
  }

  lemma HalfQuotient(n: nat, i: nat)
    ensures n / Pow(2, i) == 2 * (n / Pow(2, i + 1)) + n / Pow(2, i) % 2
  {
    var p := Pow(2, i);
    var q, r := n / (2 * p), n % (2 * p);
    DivBounds(n, 2 * p);
    assert n == q * (2 * p) + r;
    assert q * (2 * p) == (2 * q) * p;
    if r < p {
      DivUnique(n, p, 2 * q, r);
    } else {
      assert (2 * q + 1) * p == (2 * q) * p + p;
      DivUnique(n, p, 2 * q + 1, r - p);
    }
  }

  // ---- The 256-bit product ----

  /** The schoolbook product on 64-bit limbs. */
  function MulWide(a: u128, b: u128): (r: (u128, u128))
    ensures r.0 * U128_LIMIT + r.1 == a * b
  {
    var (aLo, aHi) := (a % U64_LIMIT, a / U64_LIMIT);
    var (bLo, bHi) := (b % U64_LIMIT, b / U64_LIMIT);
    LimbProduct(a, b);
    var ll: u128 := aLo * bLo;
    var lh: u128 := aLo * bHi;
    var hl: u128 := aHi * bLo;
    var hh: u128 := aHi * bHi;
    var mid: u128 := ll / U64_LIMIT + lh % U64_LIMIT + hl % U64_LIMIT;
    var low: u128 := ll % U64_LIMIT + mid % U64_LIMIT * U64_LIMIT;
    var high: int := hh + lh / U64_LIMIT + hl / U64_LIMIT + mid / U64_LIMIT;
    HighWordFits(high, low, a, b);
    (high, low)
  }

  lemma LimbProduct(a: u128, b: u128)
    ensures var aLo, aHi, bLo, bHi := a % U64_LIMIT, a / U64_LIMIT, b % U64_LIMIT, b / U64_LIMIT;
            && 0 <= aLo * bLo <= (U64_LIMIT - 1) * (U64_LIMIT - 1)
            && 0 <= aLo * bHi <= (U64_LIMIT - 1) * (U64_LIMIT - 1)
            && 0 <= aHi * bLo <= (U64_LIMIT - 1) * (U64_LIMIT - 1)
            && 0 <= aHi * bHi <= (U64_LIMIT - 1) * (U64_LIMIT - 1)
            && a * b == aHi * bHi * U128_LIMIT + (aLo * bHi + aHi * bLo) * U64_LIMIT + aLo * bLo
  {
    var aLo, aHi, bLo, bHi := a % U64_LIMIT, a / U64_LIMIT, b % U64_LIMIT, b / U64_LIMIT;
    LimbBound(aLo, bLo);
    LimbBound(aLo, bHi);
    LimbBound(aHi, bLo);
    LimbBound(aHi, bHi);
    assert a == aHi * U64_LIMIT + aLo && b == bHi * U64_LIMIT + bLo;
    Distribute(aHi, aLo, bHi, bLo, U64_LIMIT);
  }

  lemma LimbBound(x: int, y: int)
    requires 0 <= x < U64_LIMIT && 0 <= y < U64_LIMIT
    ensures 0 <= x * y <= (U64_LIMIT - 1) * (U64_LIMIT - 1)
  {
    MulMono(0, x, y);
    MulMono(x, U64_LIMIT - 1, y);
    MulMono(y, U64_LIMIT - 1, U64_LIMIT - 1);
  }

  lemma Distribute(w: int, x: int, y: int, z: int, m: int)
    ensures (w * m + x) * (y * m + z) == w * y * (m * m) + (x * y + w * z) * m + x * z
  {
  }

  lemma HighWordFits(high: int, low: int, a: u128, b: u128)
    requires 0 <= low < U128_LIMIT && high * U128_LIMIT + low == a * b
    ensures 0 <= high < U128_LIMIT
  {
    MulMono(0, a, b);
    MulMono(a, U128_LIMIT - 1, b);
    MulMono(b, U128_LIMIT - 1, U128_LIMIT - 1);
    if high < 0 {
      MulMono(high, -1, U128_LIMIT);
    } else if U128_LIMIT <= high {
      MulMono(U128_LIMIT, high, U128_LIMIT);
    }
  }

  /** Lexicographic comparison of the two wide products is comparison of the products. */
  function CmpProducts(a: u128, b: u128, c: u128, d: u128): (r: Ordering)
    ensures r == Compare(a * b, c * d)
  {
    var (x, y) := (MulWide(a, b), MulWide(c, d));
    if x.0 != y.0 then Compare(x.0, y.0) else Compare(x.1, y.1)
  }

  // ---- The 128-step division ----

  /**
   * With the low `i` bits of `low` still to come, the bits already brought down
   * have been divided by `d` into the high bits of `quotient`, leaving `remainder`.
   */
  ghost predicate Divided(high: u128, low: u128, d: u128, i: nat, quotient: int, remainder: int)
    requires i <= 128
  {
    && 0 <= remainder < d
    && exists q: nat {:trigger q * Pow(2, i)} ::
         && q < Pow(2, 128 - i)
         && quotient == q * Pow(2, i)
         && high * Pow(2, 128 - i) + low / Pow(2, i) == q * d + remainder
  }

  /** Shift-subtract division of the 256-bit value (high, low). */
  method DivWide(high: u128, low: u128, d: u128) returns (r: Result<(u128, u128), RiskError>)
    ensures d == 0 ==> r == Failure(DivisionByZero)
    ensures 0 < d <= high ==> r == Failure(MathOverflow)
    ensures high < d ==> (r.Success? && r.value.1 < d &&
                          high * U128_LIMIT + low == r.value.0 * d + r.value.1)
  {
    if d == 0 {
      return Failure(DivisionByZero);
    }
    if high >= d {
      return Failure(MathOverflow);
    }
    var remainder: u128 := high;
    var quotient: u128 := 0;
    NothingDividedYet(high, low, d);
    for i := 128 downto 0
      invariant Divided(high, low, d, i, quotient, remainder)
    {
      DivisionStep(high, low, d, i, quotient, remainder);
      var overflowed := remainder / I128_LIMIT == 1;
      remainder := 2 * remainder % U128_LIMIT + BitAt(low, i);
      if overflowed || remainder >= d {
        remainder := WrappingSub(remainder, d);
        quotient := SetBit(quotient, i);
      }
    }
    EverythingDivided(high, low, d, quotient, remainder);
    return Success((quotient, remainder));
  }

  lemma NothingDividedYet(high: u128, low: u128, d: u128)
    requires high < d
    ensures Divided(high, low, d, 128, 0, high)
  {
    Pow2Word(128);
    DivUnique(low, Pow(2, 128), 0, low);
    assert 0 * Pow(2, 128) == 0;
  }

  lemma EverythingDivided(high: u128, low: u128, d: u128, quotient: int, remainder: int)
    requires Divided(high, low, d, 0, quotient, remainder)
    ensures high * U128_LIMIT + low == quotient * d + remainder
  {
    Pow2Word(128);
  }

  lemma TopBit(r: u128)
    ensures r / I128_LIMIT == 1 <==> U128_LIMIT <= 2 * r
    ensures 2 * r % U128_LIMIT == if U128_LIMIT <= 2 * r then 2 * r - U128_LIMIT else 2 * r
    ensures 2 * r % U128_LIMIT + 1 < U128_LIMIT
  {
    var p := I128_LIMIT;
    if p <= r {
      DivUnique(r, p, 1, r - p);
      DivUnique(2 * r, U128_LIMIT, 1, 2 * r - U128_LIMIT);
    } else {
      DivUnique(r, p, 0, r);
      DivUnique(2 * r, U128_LIMIT, 0, 2 * r);
    }
  }

  /** Bringing down bit `i`: the word arithmetic is the exact arithmetic, even when the shift overflows. */
  lemma DivisionStep(high: u128, low: u128, d: u128, i: nat, quotient: u128, r: u128)
    requires i < 128 && Divided(high, low, d, i + 1, quotient, r)
    ensures 2 * r % U128_LIMIT + BitAt(low, i) < U128_LIMIT
    ensures var shifted := 2 * r % U128_LIMIT + BitAt(low, i);
            if r / I128_LIMIT == 1 || shifted >= d then
              && SetBit(quotient, i) < U128_LIMIT
              && Divided(high, low, d, i, SetBit(quotient, i), WrappingSub(shifted, d))
            else
              Divided(high, low, d, i, quotient, shifted)
  {
    var q: nat :| q < Pow(2, 127 - i) && quotient == q * Pow(2, i + 1) &&
      high * Pow(2, 127 - i) + low / Pow(2, i + 1) == q * d + r;
    var bit := BitAt(low, i);
    TopBit(r);
    QuotientBit(q, i);
    ExactStep(high, low, d, i, q, r);
    var shifted := 2 * r % U128_LIMIT + bit;
    if r / I128_LIMIT == 1 || shifted >= d {
      WrapOnce(2 * r + bit, shifted, d);
      assert SetBit(quotient, i) == (2 * q + 1) * Pow(2, i);
    } else {
      assert quotient == (2 * q) * Pow(2, i);
    }
  }

  lemma WrapOnce(exact: int, word: u128, d: u128)
    requires 0 < d <= exact < 2 * d && (word == exact || word == exact - U128_LIMIT)
    ensures WrappingSub(word, d) == exact - d
  {
    DivUnique(word - d, U128_LIMIT, if word == exact then 0 else -1, exact - d);
  }

  /** The quotient built so far, `q * 2^(i+1)`, has bit `i` clear, and setting it fits a word. */
  lemma QuotientBit(q: nat, i: nat)
    requires i < 128 && q < Pow(2, 127 - i)
    ensures q * Pow(2, i + 1) == (2 * q) * Pow(2, i)
    ensures q * Pow(2, i + 1) + Pow(2, i) == (2 * q + 1) * Pow(2, i) < U128_LIMIT
    ensures 0 <= q * Pow(2, i + 1) && q * Pow(2, i + 1) / Pow(2, i) % 2 == 0
    ensures 2 * q + 1 < Pow(2, 128 - i)
  {
    var p := Pow(2, i);
    MulMono(0, q, 2 * p);
    assert q * (2 * p) == (2 * q) * p;
    DivUnique(q * (2 * p), p, 2 * q, 0);
    assert (2 * q + 1) * p == (2 * q) * p + p;
    Pow2Word(128);
    PowSum(2, 128 - i, i);
    MulStrict(2 * q + 1, Pow(2, 128 - i), p);
  }

  lemma ExactStep(high: u128, low: u128, d: u128, i: nat, q: nat, r: u128)
    requires i < 128 && high * Pow(2, 127 - i) + low / Pow(2, i + 1) == q * d + r
    ensures var exact := high * Pow(2, 128 - i) + low / Pow(2, i);
            && exact == (2 * q) * d + (2 * r + BitAt(low, i))
            && exact == (2 * q + 1) * d + (2 * r + BitAt(low, i) - d)
  {
    HalfQuotient(low, i);
    assert Pow(2, 128 - i) == 2 * Pow(2, 127 - i);
    Doubled(high, Pow(2, 127 - i));
    Doubled(d, q);
  }

  lemma Doubled(x: int, y: int)
    ensures x * (2 * y) == 2 * (x * y) == (2 * y) * x
    ensures (2 * y + 1) * x == (2 * y) * x + x
  {
  }

  // ---- The public operations ----

  lemma ProductNat(a: nat, b: nat, c: nat)
    requires 0 < c
    ensures 0 <= a * b && 0 <= a * b / c <= a * b
  {
    MulMono(0, a, b);
    DivGalois(0, a * b, c);
    DivBounds(a * b, c);
    MulMono(1, c, a * b / c);
  }

  /** A quotient and a remainder in range determine both rounded results. */
  lemma RoundedFromRemainder(a: u128, b: u128, c: u128, q: int, r: int)
    requires a * b == q * c + r && 0 <= r < c
    ensures FloorMulDiv(a, b, c) == CheckedU128(q)
    ensures CeilMulDiv(a, b, c) == CheckedU128(if r == 0 then q else q + 1)
  {
    DivUnique(a * b, c, q, r);
    CeilDivBounds(a * b, c);
  }

  lemma TooWide(a: u128, b: u128, c: u128, high: u128, low: u128)
    requires a * b == high * U128_LIMIT + low && 0 < c <= high
    ensures FloorMulDiv(a, b, c) == Failure(MathOverflow)
    ensures CeilMulDiv(a, b, c) == Failure(MathOverflow)
  {
    MulMono(c, high, U128_LIMIT);
    DivGalois(U128_LIMIT, a * b, c);
    CeilDivBounds(a * b, c);
  }

  method MulDivFloor(a: u128, b: u128, c: u128) returns (r: Result<u128, RiskError>)
    ensures r == FloorMulDiv(a, b, c)
  {
    if c == 0 {
      return Failure(DivisionByZero);
    }
    var product := a * b;
    if product < U128_LIMIT {
      ProductNat(a, b, c);
      return Success(product / c);
    }
    var (high, low) := MulWide(a, b);
    if c <= high {
      TooWide(a, b, c, high, low);
    }
    var divided :- DivWide(high, low, c);
    RoundedFromRemainder(a, b, c, divided.0, divided.1);
    return Success(divided.0);
  }

  method MulDivCeil(a: u128, b: u128, c: u128) returns (r: Result<u128, RiskError>)
    ensures r == CeilMulDiv(a, b, c)
  {
    if c == 0 {
      return Failure(DivisionByZero);
    }
    var product := a * b;
    if product < U128_LIMIT {
      ProductNat(a, b, c);
      var quotient: int := product / c;
      DivBounds(product, c);
      RoundedFromRemainder(a, b, c, quotient, product % c);
      return if product % c == 0 then Success(quotient) else CheckedU128(quotient + 1);
    }
    var (high, low) := MulWide(a, b);
    if c <= high {
      TooWide(a, b, c, high, low);
    }
    var divided :- DivWide(high, low, c);
    var quotient: int, remainder: int := divided.0, divided.1;
    RoundedFromRemainder(a, b, c, quotient, remainder);
    return if remainder == 0 then Success(quotient) else CheckedU128(quotient + 1);
  }

  /** `|value|`, negated in the unsigned domain so the least `i128` is handled. */
  function UnsignedAbs(value: i128): (r: u128)
    ensures r == Abs(value)
  {
    if value < 0 then
      var asUnsigned: u128 := value + U128_LIMIT;
      (U128_LIMIT - asUnsigned) % U128_LIMIT
    else
      value
  }

  method MulDivI128(a: i128, b: i128, c: i128) returns (r: Result<i128, RiskError>)
    ensures r == TruncMulDiv(a, b, c)
  {
    if c == 0 {
      return Failure(DivisionByZero);
    }
    var negative := ((a < 0) != (b < 0)) != (c < 0);
    SignedProduct(a, b, c);
    var magnitude :- MulDivFloor(UnsignedAbs(a), UnsignedAbs(b), UnsignedAbs(c));
    if negative {
      if magnitude > I128_LIMIT {
        return Failure(MathOverflow);
      }
      return Success(-magnitude);
    } else {
      if magnitude >= I128_LIMIT {
        return Failure(MathOverflow);
      }
      return Success(magnitude);
    }
  }

  lemma SignedProduct(a: int, b: int, c: int)
    requires c != 0
    ensures Abs(a) * Abs(b) == Abs(a * b)
    ensures 0 <= Abs(a) * Abs(b) / Abs(c)
    ensures TruncDiv(a * b, c) ==
            if ((a < 0) != (b < 0)) != (c < 0) then -(Abs(a) * Abs(b) / Abs(c)) else Abs(a) * Abs(b) / Abs(c)
  {
    ProductNat(Abs(a), Abs(b), Abs(c));
    if a == 0 || b == 0 {
      assert a * b == 0;
      DivUnique(0, Abs(c), 0, 0);
    } else {
      MulMono(1, Abs(a), Abs(b));
      assert (a * b < 0) == ((a < 0) != (b < 0));
    }
  }

  // ---- What callers rely on ----

  /** The rounded results bracket the exact quotient, and fail exactly when they do not fit. */
  lemma MulDivExact(a: u128, b: u128, c: u128)
    requires 0 < c
    ensures var f := FloorMulDiv(a, b, c);
            if f.Success? then f.value * c <= a * b < (f.value + 1) * c
            else f == Failure(MathOverflow) && U128_LIMIT * c <= a * b
    ensures var g := CeilMulDiv(a, b, c);
            if g.Success? then (g.value - 1) * c < a * b <= g.value * c
            else g == Failure(MathOverflow) && (U128_LIMIT - 1) * c < a * b
  {
    ProductNat(a, b, c);
    DivBounds(a * b, c);
    DivGalois(U128_LIMIT, a * b, c);
    CeilDivBounds(a * b, c);
    var g := CeilDiv(a * b, c);
    assert (g - 1) * c == g * c - c;
    assert (a * b / c + 1) * c == a * b / c * c + c;
    if U128_LIMIT <= g {
      MulMono(U128_LIMIT - 1, g - 1, c);
    }
  }

  /** The result is the floor of n / d, and is missing exactly when that needs more than 128 bits. */
  predicate IsFloor(r: Result<u128, RiskError>, n: int, d: int) {
    if n < U128_LIMIT * d then r.Success? && r.value * d <= n < (r.value + 1) * d
    else r == Failure(MathOverflow)
  }

  /** The result is the ceiling of n / d, and is missing exactly when that needs more than 128 bits. */
  predicate IsCeil(r: Result<u128, RiskError>, n: int, d: int) {
    if n <= (U128_LIMIT - 1) * d then r.Success? && (r.value - 1) * d < n <= r.value * d
    else r == Failure(MathOverflow)
  }

  lemma MulDivRounds(a: u128, b: u128, c: u128)
    requires 0 < c
    ensures IsFloor(FloorMulDiv(a, b, c), a * b, c) && IsCeil(CeilMulDiv(a, b, c), a * b, c)
  {
    MulDivExact(a, b, c);
    if FloorMulDiv(a, b, c).Success? {
      MulMono(FloorMulDiv(a, b, c).value + 1, U128_LIMIT, c);
      MulMono(FloorMulDiv(a, b, c).value, U128_LIMIT - 1, c);
    }
    if CeilMulDiv(a, b, c).Success? {
      MulMono(CeilMulDiv(a, b, c).value, U128_LIMIT - 1, c);
    }
  }

  /** The floor and the ceiling of one quotient are each the only number they can be. */
  lemma RoundsOnce(r: Result<u128, RiskError>, q: Result<u128, RiskError>, n: int, d: int)
    requires 0 < d
    ensures IsFloor(r, n, d) && IsFloor(q, n, d) ==> r == q
    ensures IsCeil(r, n, d) && IsCeil(q, n, d) ==> r == q
  {
    if r.Success? && q.Success? {
      if r.value < q.value {
        MulMono(r.value + 1, q.value, d);
        MulMono(r.value, q.value - 1, d);
      } else if q.value < r.value {
        MulMono(q.value + 1, r.value, d);
        MulMono(q.value, r.value - 1, d);
      }
    }
  }

  /** The result is n / d truncated toward zero, and is missing exactly when that leaves the signed range. */
  predicate IsTrunc(r: Result<i128, RiskError>, n: int, d: int) {
    if -(I128_LIMIT + 1) * d < n < I128_LIMIT * d
    then r.Success? && Abs(r.value) * d <= Abs(n) < (Abs(r.value) + 1) * d
         && (0 <= n ==> 0 <= r.value) && (n <= 0 ==> r.value <= 0)
    else r == Failure(MathOverflow)
  }

  lemma MulDivTruncates(a: i128, b: i128, c: i128)
    requires 0 < c
    ensures IsTrunc(TruncMulDiv(a, b, c), a * b, c)
  {
    var n := a * b;
    DivBounds(Abs(n), c);
    DivGalois(0, Abs(n), c);
    DivGalois(I128_LIMIT, Abs(n), c);
    DivGalois(I128_LIMIT + 1, Abs(n), c);
    assert -(I128_LIMIT + 1) * c == -((I128_LIMIT + 1) * c);
    assert (Abs(n) / c + 1) * c == Abs(n) / c * c + c;
  }
}
