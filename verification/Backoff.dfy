/** How long a row waits after a failed push: two seconds, doubled each time and capped at
    five minutes. In nanoseconds of a 64-bit word that holds for 33 attempts; then the
    doubling overflows, and from some attempts on there is no wait at all. */
module Backoff {
  import opened Words
  import opened Outbox

  const SECOND: int := 1_000_000_000
  const LONGEST: int := 300 * SECOND

  /** backoff; the shift of an int64, and the product with a second, wrap. */
  function Wait(attempts: nat): int {
    var d := Wrap64(Wrap64(Pow2(attempts)) * SECOND);
    if d > LONGEST then LONGEST else d
  }

  const FIVES: nat := 1953125

  /** Bit k of n. */
  predicate Bit(n: nat, k: nat) {
    if k == 0 then n % 2 == 1 else Bit(n / 2, k - 1)
  }

  /** The attempts after which a row does wait: all up to 33, and up to 54 those that shift
      a clear bit of 5^9 to the sign. */
  predicate Waits(attempts: nat) {
    attempts <= 33 || (attempts <= 54 && !Bit(FIVES, 54 - attempts))
  }

  lemma {:induction false} WrapMultiple(x: int, q: int)
    ensures Wrap64(x + q * TWO64) == Wrap64(x)
  {
  }

  /** Wrapping first makes no difference to a product. */
  lemma {:induction false} WrapTwice(x: int, y: int)
    ensures Wrap64(Wrap64(x) * y) == Wrap64(x * y)
  {
    var q := (x - Wrap64(x)) / TWO64;
    assert x == Wrap64(x) + q * TWO64;
    assert x * y == Wrap64(x) * y + (q * y) * TWO64 by {
      assert (Wrap64(x) + q * TWO64) * y == Wrap64(x) * y + (q * TWO64) * y;
      assert (q * TWO64) * y == (q * y) * TWO64;
    }
    WrapMultiple(Wrap64(x) * y, q * y);
  }

  lemma {:induction false} NanosAre(attempts: nat)
    ensures Wrap64(Wrap64(Pow2(attempts)) * SECOND) == Wrap64(Pow2(attempts) * SECOND)
  {
    WrapTwice(Pow2(attempts), SECOND);
  }

  /** Two to the n, by its high and low halves. */
  lemma {:induction false} Pow2Of(n: nat, k: nat, p: nat)
    requires n >= k && Pow2(k) == p
    ensures Pow2(n) == Pow2(n - k) * p
  {
    Pow2Adds(n - k, k);
  }

  lemma {:induction false} Small(n: nat)
    requires n <= 11
    ensures Pow2(n) == [1, 2, 4, 8, 16, 32, 64, 128, 256, 512, 1024, 2048][n]
  {
    if n > 0 {
      Small(n - 1);
    }
  }

  lemma {:induction false} Pow2Is11(n: nat)
    requires n == 11
    ensures Pow2(n) == 2048 && Pow2(2 * n) == 0x40_0000 && Pow2(3 * n) == 0x2_0000_0000 && Pow2(4 * n) == 0x1000_0000_0000
  {
    Small(n);
    Pow2Adds(n, n);
    Pow2Adds(2 * n, n);
    Pow2Adds(2 * n, 2 * n);
  }

  /** Up to 33 attempts: doubled, and capped. */
  lemma {:induction false} FirstWaits(attempts: nat)
    requires attempts <= 33
    ensures Wait(attempts) == if attempts <= 8 then Pow2(attempts) * SECOND else LONGEST
  {
    NanosAre(attempts);
    Pow2Is11(11);
    Grows(attempts, 33);
    Small(8);
    Small(9);
    if attempts <= 8 {
      Grows(attempts, 8);
    } else {
      Grows(9, attempts);
    }
    WrapFits(Pow2(attempts) * SECOND);
  }

  lemma {:induction false} Grows(m: nat, n: nat)
    requires m <= n
    ensures Pow2(m) <= Pow2(n)
  {
    if m < n {
      Grows(m, n - 1);
    }
  }

  /** From the 55th attempt on: nothing is left of the product. */
  lemma {:induction false} LateWaits(attempts: nat)
    requires attempts >= 55
    ensures Wait(attempts) == 0
  {
    NanosAre(attempts);
    Shifted(attempts);
    WordSize(64);
    Pow2Of(attempts + 9, 64, TWO64);
    var q := Pow2(attempts + 9 - 64);
    assert Pow2(attempts) * SECOND == (q * FIVES) * TWO64;
    WrapMultiple(0, q * FIVES);
    WrapFits(0);
  }

  /** A second is 5^9 times 2^9 nanoseconds, so that after n attempts the product is 5^9
      shifted by n + 9. */
  lemma {:induction false} Shifted(attempts: nat)
    ensures Pow2(attempts) * SECOND == FIVES * Pow2(attempts + 9)
  {
    Small(9);
    Pow2Of(attempts + 9, 9, 512);
  }

  lemma {:induction false} BitIs(n: nat, k: nat)
    ensures Pow2(k + 1) == 2 * Pow2(k) && (Bit(n, k) <==> n % Pow2(k + 1) >= Pow2(k))
    ensures n % 2 == 1 ==> n % Pow2(k + 1) >= 1
  {
    if k == 0 {
      assert Pow2(1) == 2;
    } else {
      BitIs(n / 2, k - 1);
      HalfRemainder(n, Pow2(k));
    }
  }

  lemma {:induction false} HalfRemainder(n: nat, p: nat)
    requires p > 0
    ensures n % (2 * p) == 2 * (n / 2 % p) + n % 2
  {
    var h, r := n / 2 / p, n / 2 % p;
    assert n == 2 * (h * p + r) + n % 2;
    assert n == h * (2 * p) + (2 * r + n % 2);
    Remainder(n, 2 * p, h, 2 * r + n % 2);
  }

  /** In between, the sign is the bit of 5^9 that the shift puts on top. */
  lemma {:induction false} MiddleWaits(attempts: nat)
    requires 34 <= attempts <= 54
    ensures if Waits(attempts) then Wait(attempts) == LONGEST else Wait(attempts) <= 0
  {
    var k := 54 - attempts;
    NanosAre(attempts);
    Shifted(attempts);
    BitIs(FIVES, k);
    WordSize(64);
    Pow2Adds(k + 1, 63 - k);
    Pow2Is11(11);
    Grows(33, 63 - k);
    assert 63 - k == attempts + 9;
    hide Pow2, Bit, Wrap64;
    SignBit(FIVES, Pow2(k), Pow2(63 - k));
  }

  lemma {:induction false} SignBit(n: nat, p: nat, w: nat)
    requires p > 0 && 2 * p * w == TWO64 && w >= 0x2_0000_0000 && n % (2 * p) >= 1
    ensures if n % (2 * p) >= p then Wrap64(n * w) < 0 else Wrap64(n * w) >= w
  {
    var h, r := n / (2 * p), n % (2 * p);
    assert n == h * (2 * p) + r;
    assert n * w == h * TWO64 + r * w by {
      assert (h * (2 * p) + r) * w == (h * (2 * p)) * w + r * w;
      assert (h * (2 * p)) * w == h * (2 * p * w);
    }
    WrapMultiple(r * w, h);
    TopHalf(r, p, w);
  }

  lemma {:induction false} TopHalf(r: nat, p: nat, w: nat)
    requires 2 * p * w == TWO64 && 1 <= r < 2 * p && w >= 0x2_0000_0000
    ensures if r >= p then Wrap64(r * w) < 0 else Wrap64(r * w) >= w
  {
    Differ(r, 2 * p, w);
    MultipleIsLarge(2 * p - r, w);
    MultipleIsLarge(r, w);
    if r >= p {
      AtLeast(r, p, w);
      WrapMultiple(r * w - TWO64, 1);
      WrapFits(r * w - TWO64);
    } else {
      Differ(r, p, w);
      MultipleIsLarge(p - r, w);
      WrapFits(r * w);
    }
  }

  lemma {:induction false} AtLeast(r: nat, p: nat, w: nat)
    requires r >= p
    ensures r * w >= p * w
  {
  }

  /** A row waits its five minutes, or a power of two of seconds below that, exactly after
      these attempts; after all others it is due again at once. */
  lemma {:induction false} WaitIs(attempts: nat)
    ensures Waits(attempts) ==> Wait(attempts) == if attempts <= 8 then Pow2(attempts) * SECOND else LONGEST
    ensures !Waits(attempts) ==> Wait(attempts) <= 0
  {
    if attempts <= 33 {
      FirstWaits(attempts);
    } else if attempts <= 54 {
      MiddleWaits(attempts);
    } else {
      LateWaits(attempts);
    }
  }

  /** The first attempt without a wait, and the last with one. */
  lemma {:induction false} ThirtyFourth()
    ensures Wait(33) == LONGEST && Wait(34) < 0 && Waits(53) && forall n: nat :: n > 53 ==> !Waits(n)
  {
    FirstWaits(33);
    Pow2Is11(11);
    assert Pow2(34) == 0x4_0000_0000;
    NanosAre(34);
    assert !Bit(FIVES, 1) && Bit(FIVES, 0);
  }

  /** After a failed drain at `now` a row of its batch is due at that time exactly when its
      attempts are among those without a wait. */
  lemma {:induction false} DueAgainIff<B>(was: seq<OutRow<B>>, rows: seq<OutRow<B>>, batch: seq<OutRow<B>>, now: int, i: nat)
    requires PutBack(was, rows, batch, (n: nat) => now + Wait(n)) && i < |was| && was[i] in batch
    ensures rows[i].attempts == was[i].attempts + 1
    ensures rows[i].nextAttempt <= now <==> !Waits(rows[i].attempts)
  {
    WaitIs(was[i].attempts + 1);
    WaitPositive(was[i].attempts + 1);
  }

  lemma {:induction false} WaitPositive(attempts: nat)
    ensures Wait(attempts) > 0 <==> Waits(attempts)
  {
    WaitIs(attempts);
  }
}
