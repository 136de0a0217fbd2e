/** The default retry delay (server.go, DefaultRetryDelayFunc).  `jitter` stands for rand.IntN(30). */
module Backoff {

  function Fourth(n: int): int {
    n * n * n * n
  }

  function DelaySeconds(n: nat, jitter: nat): int {
    Fourth(n) + 15 + jitter * (n + 1)
  }

  const MAX_INT64 := 0x7FFF_FFFF_FFFF_FFFF

  /** Seconds times 10^9, as an int64, would be this number. */
  function Nanoseconds(n: nat, jitter: nat): int {
    DelaySeconds(n, jitter) * 1_000_000_000
  }

  lemma DelayBounds(n: nat, jitter: nat)
    requires jitter < 30
    ensures Fourth(n) + 15 <= DelaySeconds(n, jitter) <= Fourth(n) + 15 + 29 * (n + 1)
    ensures DelaySeconds(n, 0) == Fourth(n) + 15 && DelaySeconds(n, 29) == Fourth(n) + 15 + 29 * (n + 1)
  {
    MulBounds(jitter, n + 1);
  }

  lemma MulBounds(jitter: nat, m: nat)
    requires jitter < 30
    ensures 0 <= jitter * m <= 29 * m
  {
  }

  lemma FourthStep(n: int)
    ensures Fourth(n + 1) == Fourth(n) + 4 * (n * n * n) + 6 * (n * n) + 4 * n + 1
  {
    var s := n * n;
    assert (n + 1) * (n + 1) == s + 2 * n + 1;
    assert (n + 1) * (n + 1) * (n + 1) == s * n + 3 * s + 3 * n + 1;
    assert (s * n + 3 * s + 3 * n + 1) * (n + 1) == s * n * n + 4 * (s * n) + 6 * s + 4 * n + 1;
  }

  lemma CubeGrows(n: int)
    requires n >= 3
    ensures n * n >= 3 * n && n * n * n >= 9 * n
  {
  }

  /** One possible delay after n failures is below one possible delay after n + 1. */
  predicate Below(n: nat, jitter: nat, next: nat) {
    DelaySeconds(n, jitter) < DelaySeconds(n + 1, next)
  }

  /** Every delay after n + 1 failures exceeds every delay after n, exactly from n = 3 on. */
  lemma DelaysSeparate(n: nat)
    ensures (forall j: nat, k: nat | j < 30 && k < 30 :: Below(n, j, k)) <==> n >= 3
  {
    FourthStep(n);
    if n >= 3 {
      CubeGrows(n);
      forall j: nat, k: nat | j < 30 && k < 30 ensures Below(n, j, k) {
        DelayBounds(n, j);
        DelayBounds(n + 1, k);
      }
    } else {
      assert !Below(n, 29, 0);
    }
  }

  lemma {:induction false} FourthMonotone(a: nat, b: nat)
    requires a <= b
    ensures Fourth(a) <= Fourth(b)
    decreases b
  {
    if a < b {
      FourthStep(b - 1);
      var c := b - 1;
      assert c * c * c >= 0;
      FourthMonotone(a, b - 1);
    }
  }

  /** The delay fits time.Duration, whatever the jitter, for n up to 309; beyond that it never does. */
  lemma FitsInt64(n: nat, jitter: nat)
    requires jitter < 30
    ensures Nanoseconds(n, jitter) <= MAX_INT64 <==> n <= 309
  {
    DelayBounds(n, jitter);
    if n <= 309 { FourthMonotone(n, 309); } else { FourthMonotone(310, n); }
  }
}
