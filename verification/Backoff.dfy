/** The delay between the attempts of one request, in nanoseconds, with the 64-bit
    arithmetic of Go's time.Duration. */
module Backoff {
  import opened Text

  const MILLISECOND := 1_000_000
  const SECOND := 1_000_000_000
  const CAP := 8_000_000_000
  const BASE := 250_000_000

  const TWO63 := 0x8000_0000_0000_0000
  const TWO64 := 0x1_0000_0000_0000_0000

  /** Signed 64-bit wrap-around. */
  function Wrap(x: int): (w: int)
    ensures -TWO63 <= w < TWO63
    ensures -TWO63 <= x < TWO63 ==> w == x
  {
    (x + TWO63) % TWO64 - TWO63
  }

  function Pow2(n: nat): (p: nat)
    ensures p > 0
  {
    if n == 0 then 1 else 2 * Pow2(n - 1)
  }

  function Min(a: int, b: int): int { if a <= b then a else b }

  function Max(a: int, b: int): int { if a >= b then a else b }

  function TowardZero(x: real): int {
    if x >= 0.0 then x.Floor else -((-x).Floor)
  }

  /** Go's float-to-int conversion truncates; outside the range of int64 the result is
      the platform's own, `outside`. */
  function Truncated(x: real, outside: int): int {
    var t := TowardZero(x);
    if -TWO63 <= t < TWO63 then t else outside
  }

  /** time.Duration(seconds * float64(time.Second)). */
  function ToDuration(seconds: real, outside: int): int {
    Truncated(seconds * 1_000_000_000.0, outside)
  }

  /** time.Duration(math.Pow(2, float64(attempt))). */
  function Doubling(attempt: nat, outside: int): int {
    if attempt < 63 then Pow2(attempt) else outside
  }

  /** `retryAfter` is the parsed Retry-After header, if there is one that parses. */
  function RetryDelay(attempt: nat, retryAfter: Option<real>, outside: int): int {
    var product := Wrap(BASE * Doubling(attempt, outside));
    var backoff := if product > CAP then CAP else product;
    match retryAfter
    case None => backoff
    case Some(seconds) =>
      var asked := ToDuration(seconds, outside);
      var requested := if asked > CAP then CAP else asked;
      if requested > backoff then requested else backoff
  }

  /** The delay without 64-bit effects: capped doubling, raised to a capped request. */
  function Ideal(attempt: nat, retryAfter: Option<real>): int {
    var backoff := Min(250_000_000 * Pow2(attempt), 8_000_000_000);
    match retryAfter
    case None => backoff
    case Some(seconds) => Max(backoff, Min(TowardZero(seconds * 1_000_000_000.0), 8_000_000_000))
  }

  /** The product fits int64, so the platform has no say. */
  predicate InRange(retryAfter: Option<real>) {
    retryAfter.Some? ==> -TWO63 <= TowardZero(retryAfter.value * 1_000_000_000.0) < TWO63
  }

  // -------------------------------------------------------------- up to attempt 35

  lemma {:induction false} Pow2Monotone(a: nat, b: nat)
    requires a <= b
    ensures Pow2(a) <= Pow2(b)
    decreases b
  {
    if a < b {
      Pow2Monotone(a, b - 1);
    }
  }

  lemma Pow2Values()
    ensures Pow2(5) == 32 && Pow2(10) == 1024 && Pow2(20) == 0x10_0000 && Pow2(35) == 0x8_0000_0000
  {
    assert Pow2(5) == 32;
    assert Pow2(10) == 1024;
    assert Pow2(15) == 0x8000;
    assert Pow2(20) == 0x10_0000;
    assert Pow2(25) == 0x200_0000;
    assert Pow2(30) == 0x4000_0000;
  }

  lemma NoWrapUpTo35(attempt: nat)
    requires attempt <= 35
    ensures BASE <= BASE * Pow2(attempt) < TWO63
  {
    Pow2Monotone(attempt, 35);
    Pow2Values();
    Bounded(Pow2(attempt));
  }

  lemma Bounded(p: nat)
    requires 1 <= p <= 0x8_0000_0000
    ensures BASE <= BASE * p < TWO63
  {
  }

  /** Up to attempt 35 the delay is the ideal one, and lies between 250 ms and 8 s. */
  lemma DelayIsIdeal(attempt: nat, retryAfter: Option<real>, outside: int)
    requires attempt <= 35 && InRange(retryAfter)
    ensures RetryDelay(attempt, retryAfter, outside) == Ideal(attempt, retryAfter)
    ensures BASE <= RetryDelay(attempt, retryAfter, outside) <= CAP
  {
    NoWrapUpTo35(attempt);
  }

  /** The bounds need no assumption on the header. */
  lemma DelayBounds(attempt: nat, retryAfter: Option<real>, outside: int)
    requires attempt <= 35
    ensures BASE <= RetryDelay(attempt, retryAfter, outside) <= CAP
  {
    NoWrapUpTo35(attempt);
  }

  /** A later attempt or a longer request never shortens the delay. */
  lemma DelayMonotone(a: nat, b: nat, x: real, y: real, outside: int)
    requires a <= b <= 35 && InRange(Some(x)) && InRange(Some(y)) && x <= y
    ensures RetryDelay(a, None, outside) <= RetryDelay(b, None, outside)
    ensures RetryDelay(a, Some(x), outside) <= RetryDelay(b, Some(y), outside)
    ensures RetryDelay(a, None, outside) <= RetryDelay(a, Some(x), outside)
  {
    NoWrapUpTo35(a);
    NoWrapUpTo35(b);
    Pow2Monotone(a, b);
    assert x * 1_000_000_000.0 <= y * 1_000_000_000.0;
  }

  // ------------------------------------------------------------- beyond attempt 35

  /** The attempts up to 62 whose doubled delay wraps to zero or below. */
  predicate Lost(attempt: nat) {
    || 36 <= attempt <= 38 || 40 <= attempt <= 42 || attempt == 45 || attempt == 46 || attempt == 48
    || attempt == 50 || attempt == 51 || attempt == 54 || 56 <= attempt
  }

  /** The 64-bit product of the base delay and the doubling. */
  function Product(attempt: nat): int {
    Wrap(BASE * Pow2(attempt))
  }

  /** Doubling a product either fits or wraps by one turn. */
  lemma Next(attempt: nat, turn: int)
    requires turn == 0 || turn == 1 || turn == -1
    requires -TWO63 <= 2 * Product(attempt) - turn * TWO64 < TWO63
    ensures Product(attempt + 1) == 2 * Product(attempt) - turn * TWO64
  {
    var x := BASE * Pow2(attempt);
    var k := (x + TWO63) / TWO64;
    assert Wrap(x) == x - k * TWO64;
    assert BASE * Pow2(attempt + 1) == 2 * x;
    WrapIs(2 * x, 2 * k + turn);
  }

  lemma WrapIs(x: int, k: int)
    requires -TWO63 <= x - k * TWO64 < TWO63
    ensures Wrap(x) == x - k * TWO64
  {
  }

  lemma Product35()
    ensures Product(35) == 8589934592000000000
  {
    Pow2Values();
  }

  lemma Products36To44()
    ensures Product(36) == -1266874889709551616
    ensures Product(37) == -2533749779419103232
    ensures Product(38) == -5067499558838206464
    ensures Product(39) == 8311744956033138688
    ensures Product(40) == -1823254161643274240
    ensures Product(41) == -3646508323286548480
    ensures Product(42) == -7293016646573096960
    ensures Product(43) == 3860710780563357696
    ensures Product(44) == 7721421561126715392
  {
    Product35();
    hide Product;
    Next(35, 1);
    Next(36, 0);
    Next(37, 0);
    Next(38, -1);
    Next(39, 1);
    Next(40, 0);
    Next(41, 0);
    Next(42, -1);
    Next(43, 0);
  }

  lemma Products45To53()
    ensures Product(45) == -3003900951456120832
    ensures Product(46) == -6007801902912241664
    ensures Product(47) == 6431140267885068288
    ensures Product(48) == -5584463537939415040
    ensures Product(49) == 7277816997830721536
    ensures Product(50) == -3891110078048108544
    ensures Product(51) == -7782220156096217088
    ensures Product(52) == 2882303761517117440
    ensures Product(53) == 5764607523034234880
  {
    Products36To44();
    hide Product;
    Next(44, 1);
    Next(45, 0);
    Next(46, -1);
    Next(47, 1);
    Next(48, -1);
    Next(49, 1);
    Next(50, 0);
    Next(51, -1);
    Next(52, 0);
  }

  lemma Products54To62()
    ensures Product(54) == -6917529027641081856
    ensures Product(55) == 4611686018427387904
    ensures Product(56) == -9223372036854775808
    ensures Product(57) == 0
    ensures Product(58) == 0
    ensures Product(59) == 0
    ensures Product(60) == 0
    ensures Product(61) == 0
    ensures Product(62) == 0
  {
    Products45To53();
    hide Product;
    Next(53, 1);
    Next(54, -1);
    Next(55, 1);
    Next(56, -1);
    Next(57, 0);
    Next(58, 0);
    Next(59, 0);
    Next(60, 0);
    Next(61, 0);
  }

  /** Without a header the delay stays within 250 ms and 8 s exactly when the attempt is
      not lost, first at 36. From 57 to 62 the product is zero: no delay at all. From 63 on
      the power no longer fits int64, and the platform's conversion decides. */
  lemma BoundsExactly(attempt: nat, outside: int)
    ensures BASE <= RetryDelay(attempt, None, outside) <= CAP <==>
      if attempt <= 62 then !Lost(attempt) else Wrap(BASE * outside) >= BASE
    ensures attempt <= 62 && Lost(attempt) ==> attempt >= 36 && RetryDelay(attempt, None, outside) <= 0
    ensures 57 <= attempt <= 62 ==> RetryDelay(attempt, None, outside) == 0
    ensures attempt >= 63 ==> RetryDelay(attempt, None, outside) == Min(Wrap(BASE * outside), CAP)
  {
    if attempt >= 63 {
      hide Wrap;
    } else if attempt <= 35 {
      DelayBounds(attempt, None, outside);
    } else {
      DelayIsProduct(attempt, outside);
      SignOfProduct(attempt);
      hide Product, RetryDelay;
    }
  }

  lemma SignOfProduct(attempt: nat)
    requires 36 <= attempt <= 62
    ensures if Lost(attempt) then Product(attempt) <= 0 else Product(attempt) > CAP
    ensures attempt >= 57 ==> Product(attempt) == 0
  {
    Products36To44();
    Products45To53();
    Products54To62();
    hide Product;
    match attempt
    case 36 =>
    case 37 =>
    case 38 =>
    case 39 =>
    case 40 =>
    case 41 =>
    case 42 =>
    case 43 =>
    case 44 =>
    case 45 =>
    case 46 =>
    case 47 =>
    case 48 =>
    case 49 =>
    case 50 =>
    case 51 =>
    case 52 =>
    case 53 =>
    case 54 =>
    case 55 =>
    case 56 =>
    case 57 =>
    case 58 =>
    case 59 =>
    case 60 =>
    case 61 =>
    case _ => assert attempt == 62;
  }

  lemma DelayIsProduct(attempt: nat, outside: int)
    requires attempt <= 62
    ensures RetryDelay(attempt, None, outside) == Min(Product(attempt), CAP)
  {
    hide Wrap, Pow2;
  }
}
