/** How often and how long the publication of one item is retried after failures. */
module RetryBudget {
  import opened Basics

  datatype Kind = RetryableFailure | PermanentFailure | OtherKind

  datatype Reason = ArtifactUnavailable | UnknownFailure | GithubRateLimit | OtherReason

  datatype Completion = Completion(kind: Kind, reason: Reason)

  const TRANSIENT_MAX_AGE_MS: int := 86400000
  const UNKNOWN_MAX_AGE_MS: int := 3600000
  const TRANSIENT_LIMIT: int := 48
  const PERMANENT_LIMIT: int := 3
  const UNKNOWN_LIMIT: int := 14
  const MINUTE_MS: int := 60000
  const NORMAL_MAX_MS: int := 300000
  const RATE_LIMIT_MAX_MS: int := 3600000

  predicate Exhausted(c: Completion, attempt: int, firstFailureAt: int, now: int) {
    match c.kind
    case RetryableFailure =>
      if c.reason == ArtifactUnavailable then false
      else if c.reason == UnknownFailure then attempt >= UNKNOWN_LIMIT || now >= firstFailureAt + UNKNOWN_MAX_AGE_MS
      else attempt >= TRANSIENT_LIMIT || now >= firstFailureAt + TRANSIENT_MAX_AGE_MS
    case PermanentFailure =>
      if c.reason == UnknownFailure then attempt >= UNKNOWN_LIMIT || now >= firstFailureAt + UNKNOWN_MAX_AGE_MS
      else attempt >= PERMANENT_LIMIT
    case OtherKind => false
  }

  /** (hash * 33 + code) >>> 0 over the characters, from 5381. */
  function Hash(codes: seq<nat>): (hash: nat)
    ensures hash < 0x1_0000_0000
  {
    if codes == [] then 5381 else (Hash(codes[..|codes|-1]) * 33 + codes[|codes|-1]) % 0x1_0000_0000
  }

  function Decimal(n: nat): seq<nat> {
    if n < 10 then [48 + n] else Decimal(n / 10) + [48 + n % 10]
  }

  const COLON: nat := 58

  function Cap(c: Completion): int {
    if c.reason == GithubRateLimit then RATE_LIMIT_MAX_MS else NORMAL_MAX_MS
  }

  function BaselineDelay(c: Completion, attempt: int): int {
    if c.kind == PermanentFailure && c.reason != UnknownFailure
    then (if attempt <= 1 then MINUTE_MS else NORMAL_MAX_MS)
    else MINUTE_MS * Pow2(Min(Max(attempt - 1, 0), 6))
  }

  function BaseDelay(c: Completion, attempt: int): int {
    Min(Cap(c), BaselineDelay(c, attempt))
  }

  /** The base delay plus up to 20 percent, spread by a hash of the item key and the attempt. */
  function Delay(itemKey: seq<nat>, c: Completion, attempt: nat): int {
    var delay := BaseDelay(c, attempt);
    delay + delay * (Hash(itemKey + [COLON] + Decimal(attempt)) % 21) / 100
  }

  // ------------------------------------------------------------------ one wait

  lemma Jitter(delay: int, spread: nat)
    requires delay >= 0 && spread <= 20
    ensures 0 <= delay * spread / 100 && 10 * (delay * spread / 100) <= 2 * delay
  {
    assert delay * spread <= delay * 20;
  }

  /** Every wait lies between one minute and 1.2 times its cap, for every item key and attempt. */
  lemma DelayBounds(itemKey: seq<nat>, c: Completion, attempt: nat)
    ensures MINUTE_MS <= BaseDelay(c, attempt) <= Delay(itemKey, c, attempt)
    ensures 10 * Delay(itemKey, c, attempt) <= 12 * Cap(c)
  {
    Pow2Monotone(0, Min(Max(attempt - 1, 0), 6));
    Jitter(BaseDelay(c, attempt), Hash(itemKey + [COLON] + Decimal(attempt)) % 21);
  }

  /** Base delays: a minute, doubling up to the cap (five minutes, an hour under a rate limit); five minutes when permanent. */
  lemma BaseDelayDoubles(c: Completion, attempt: int)
    ensures attempt <= 1 ==> BaseDelay(c, attempt) == 60 * 1000
    ensures attempt >= 1 ==>
      var cap := if c.reason == GithubRateLimit then 60 * 60 * 1000 else 5 * 60 * 1000;
      var permanent := c.kind == PermanentFailure && c.reason != UnknownFailure;
      BaseDelay(c, attempt + 1) == if permanent then 5 * 60 * 1000 else Min(cap, 2 * BaseDelay(c, attempt))
  {
    if attempt >= 7 {
      assert Pow2(6) == 64;
    }
  }

  /** The whole number that the hash is the low 32 bits of. */
  function Polynomial(codes: seq<nat>): nat {
    if codes == [] then 5381 else Polynomial(codes[..|codes|-1]) * 33 + codes[|codes|-1]
  }

  /** Cutting to 32 bits at every step is cutting once at the end. */
  lemma {:induction false} HashIsPolynomial(codes: seq<nat>)
    ensures Hash(codes) == Polynomial(codes) % 0x1_0000_0000
  {
    if codes != [] {
      var init, last := codes[..|codes|-1], codes[|codes|-1];
      HashIsPolynomial(init);
      CutFirst(Polynomial(init), last);
    }
  }

  lemma CutFirst(n: nat, code: nat)
    ensures (n % 0x1_0000_0000 * 33 + code) % 0x1_0000_0000 == (n * 33 + code) % 0x1_0000_0000
  {
    var high, low := n / 0x1_0000_0000, n % 0x1_0000_0000;
    SameRemainder(low * 33 + code, high * 33);
  }

  lemma {:induction false} SameRemainder(n: nat, times: nat)
    ensures (n + times * 0x1_0000_0000) % 0x1_0000_0000 == n % 0x1_0000_0000
  {
    if times > 0 {
      SameRemainder(n, times - 1);
      assert n + times * 0x1_0000_0000 == n + (times - 1) * 0x1_0000_0000 + 0x1_0000_0000;
    }
  }

  function ValueOf(digits: seq<nat>): int {
    if digits == [] then 0 else 10 * ValueOf(digits[..|digits|-1]) + digits[|digits|-1] as int - '0' as int
  }

  /** The attempt is hashed as its decimal digits, without a leading zero. */
  lemma {:induction false} DecimalIsValue(n: nat)
    ensures ValueOf(Decimal(n)) == n && Decimal(n) != []
    ensures forall d | d in Decimal(n) :: '0' as nat <= d <= '9' as nat
    ensures n > 0 ==> Decimal(n)[0] != '0' as nat
  {
    if n < 10 {
      assert Decimal(n)[..0] == [];
    } else {
      DecimalIsValue(n / 10);
      assert Decimal(n)[..|Decimal(n)|-1] == Decimal(n / 10);
    }
  }

  /** The wait is the base delay and a share of it between 0 and 20 percent, fixed by item key and attempt. */
  lemma DelayExactly(itemKey: seq<nat>, c: Completion, attempt: nat)
    ensures var hundredths := Polynomial(itemKey + [':' as nat] + Decimal(attempt)) % 0x1_0000_0000 % 21;
      Delay(itemKey, c, attempt) == BaseDelay(c, attempt) + BaseDelay(c, attempt) * hundredths / 100
  {
    hide BaseDelay, Decimal, Polynomial, Hash;
    HashIsPolynomial(itemKey + [COLON] + Decimal(attempt));
  }

  /** Giving up: after 14 attempts or an hour when unknown, 48 or a day when transient, 3 when permanent, else never. */
  lemma ExhaustedExactly(c: Completion, attempt: int, firstFailureAt: int, now: int)
    ensures var hours := (now - firstFailureAt) / (3600 * 1000);
      Exhausted(c, attempt, firstFailureAt, now) <==>
        GivesUp(c) && if c.reason == UnknownFailure then attempt >= 14 || hours >= 1
                      else if c.kind == RetryableFailure then attempt >= 48 || hours >= 24
                      else attempt >= 3
  {
  }

  // ------------------------------------------------------------------ a whole retry history

  /** times[n - 1] is the n-th failure; each retry comes no earlier than scheduled. */
  ghost predicate History(itemKey: seq<nat>, c: Completion, times: seq<int>) {
    times != [] && forall n | 1 <= n < |times| :: times[n] >= times[n-1] + Delay(itemKey, c, n)
  }

  function Sum(c: Completion, n: nat): int {
    if n == 0 then 0 else Sum(c, n - 1) + BaseDelay(c, n)
  }

  lemma {:induction false} ElapsedAtLeast(itemKey: seq<nat>, c: Completion, times: seq<int>, n: nat)
    requires History(itemKey, c, times) && 1 <= n <= |times|
    ensures times[n-1] - times[0] >= Sum(c, n - 1)
  {
    if n > 1 {
      ElapsedAtLeast(itemKey, c, times, n - 1);
      DelayBounds(itemKey, c, n - 1);
    }
  }

  /** 60, 120, 240 and then at least 300 seconds each. */
  lemma {:induction false} SumAtLeast(c: Completion, n: nat)
    requires n >= 3 && (c.kind != PermanentFailure || c.reason == UnknownFailure)
    ensures Sum(c, n) >= 420000 + 300000 * (n - 3)
  {
    if n > 3 {
      SumAtLeast(c, n - 1);
      Pow2Monotone(3, Min(n - 1, 6));
      assert Pow2(3) == 8;
    } else {
      assert Pow2(0) == 1 && Pow2(1) == 2 && Pow2(2) == 4;
      assert Sum(c, 3) == BaseDelay(c, 1) + BaseDelay(c, 2) + BaseDelay(c, 3);
    }
  }

  /** The attempts after which this failure is given up, if it ever is. */
  function Limit(c: Completion): int {
    if c.reason == UnknownFailure then UNKNOWN_LIMIT
    else if c.kind == RetryableFailure then TRANSIENT_LIMIT else PERMANENT_LIMIT
  }

  /** The shortest time before it is: 13,620, 3,420 and 360 seconds. */
  function LeastEffortMs(c: Completion): int {
    if c.reason == UnknownFailure then 3420000 else if c.kind == RetryableFailure then 13620000 else 360000
  }

  predicate GivesUp(c: Completion) {
    c.kind != OtherKind && !(c.kind == RetryableFailure && c.reason == ArtifactUnavailable)
  }

  /**
   Repeating one failure is given up by its attempt limit, but never before the least effort has
   passed since the first failure, for every item key; an artifact that is not there yet is waited
   for without limit.
   */
  lemma RetryBudgetLaw(itemKey: seq<nat>, c: Completion, times: seq<int>, n: nat)
    requires History(itemKey, c, times) && 1 <= n <= |times|
    ensures n >= Limit(c) ==> (GivesUp(c) <==> Exhausted(c, n, times[0], times[n-1]))
    ensures !GivesUp(c) ==> !Exhausted(c, n, times[0], times[n-1])
    ensures Exhausted(c, n, times[0], times[n-1]) ==> times[n-1] - times[0] >= LeastEffortMs(c)
  {
    ElapsedAtLeast(itemKey, c, times, n);
    if GivesUp(c) && n >= Limit(c) {
      if Limit(c) == PERMANENT_LIMIT {
        SumMonotone(c, 2, n - 1);
        assert Sum(c, 2) == BaseDelay(c, 1) + BaseDelay(c, 2);
      } else {
        SumAtLeast(c, n - 1);
      }
    }
  }

  lemma {:induction false} SumMonotone(c: Completion, m: nat, n: nat)
    requires m <= n
    ensures Sum(c, m) <= Sum(c, n)
    decreases n
  {
    if m < n {
      SumMonotone(c, m, n - 1);
      DelayBounds([], c, n);
    }
  }
}
