// Retry waits in milliseconds: both retry loops start at 100, double, and stop at 5000
// (internal/logagent/shipper.go, internal/ingest/ingester.go).
module Backoff {
  const INITIAL := 100
  const MAXIMUM := 5000

  function Doubled(backoff: nat): nat {
    if backoff * 2 > MAXIMUM then MAXIMUM else backoff * 2
  }

  function Pow2(k: nat): (p: nat)
    ensures p > 0
  {
    if k == 0 then 1 else 2 * Pow2(k - 1)
  }

  // The wait after the k-th failure, in closed form.
  function Wait(k: nat): nat {
    if INITIAL * Pow2(k) > MAXIMUM then MAXIMUM else INITIAL * Pow2(k)
  }

  // What a loop that starts at INITIAL and doubles waits after its k-th failure.
  function Looped(k: nat): nat {
    if k == 0 then INITIAL else Doubled(Looped(k - 1))
  }

  lemma {:induction false} LoopWaits(k: nat)
    ensures Looped(k) == Wait(k)
  {
    if k > 0 {
      LoopWaits(k - 1);
    }
  }

  function Waits(n: nat): (ws: seq<nat>)
    ensures |ws| == n && forall k :: 0 <= k < n ==> ws[k] == Wait(k)
  {
    seq(n, k requires 0 <= k < n => Wait(k))
  }

  function Sum(ws: seq<nat>): nat {
    if ws == [] then 0 else Sum(ws[..|ws| - 1]) + ws[|ws| - 1]
  }

  lemma {:induction false} Pow2Grows(k: nat)
    requires k >= 6
    ensures Pow2(k) >= 64
  {
    if k == 6 {
      assert Pow2(2) == 4;
      assert Pow2(4) == 16;
      assert Pow2(6) == 64;
    } else {
      Pow2Grows(k - 1);
    }
  }

  /** n failures in a row wait 100 * (2^n - 1) ms while the wait still doubles,
      and 5000 ms more for every failure after the sixth. */
  lemma {:induction false} TotalWait(n: nat)
    ensures n <= 6 ==> Sum(Waits(n)) == 100 * (Pow2(n) - 1)
    ensures n >= 6 ==> Sum(Waits(n)) == 6300 + 5000 * (n - 6)
  {
    if n > 0 {
      TotalWait(n - 1);
      assert Waits(n)[..n - 1] == Waits(n - 1);
      if n <= 6 {
        SmallPow2(n - 1);
      } else {
        Pow2Grows(n - 1);
      }
      if n == 6 {
        SmallPow2(5);
        assert Pow2(6) == 2 * Pow2(5);
      }
    }
  }

  lemma {:induction false} SmallPow2(k: nat)
    requires k <= 5
    ensures Pow2(k) <= 32 && (k == 5 ==> Pow2(k) == 32)
  {
    if k == 0 {
    } else if k < 5 {
      SmallPow2(k - 1);
      assert k == 1 ==> Pow2(k) == 2;
      assert k == 2 ==> Pow2(k) == 4 by { assert Pow2(1) == 2; }
      assert Pow2(1) == 2;
      assert Pow2(2) == 4;
      assert Pow2(3) == 8;
      assert Pow2(4) == 16;
    } else {
      assert Pow2(1) == 2;
      assert Pow2(2) == 4;
      assert Pow2(3) == 8;
      assert Pow2(4) == 16;
    }
  }
}
