/** How cluster size scales retransmissions and suspicion timeouts. */
module Scaling {
  function Pow10(e: nat): (p: nat)
    ensures p >= 1
  {
    if e == 0 then 1 else 10 * Pow10(e - 1)
  }

  /** ceil(log10(m)) in integers; `CeilLog10Exact` ties it to powers of ten. */
  function CeilLog10(m: nat): nat
    decreases m
  {
    if m <= 1 then 0 else 1 + CeilLog10((m + 9) / 10)
  }

  function RetransmitLimit(mult: nat, n: nat): nat {
    mult * CeilLog10(n + 1)
  }

  lemma {:induction false} CeilLog10Exact(m: nat)
    requires m >= 1
    ensures m <= Pow10(CeilLog10(m))
    ensures forall e: nat :: m <= Pow10(e) ==> CeilLog10(m) <= e
    decreases m
  {
    if m > 1 {
      CeilLog10Exact((m + 9) / 10);
      forall e: nat | m <= Pow10(e) ensures CeilLog10(m) <= e {
        assert Pow10(e) == 10 * Pow10(e - 1);
        assert (m + 9) / 10 <= Pow10(e - 1);
      }
    }
  }

  lemma {:induction false} MulMonotone(a: nat, b: nat, c: nat)
    requires b <= c
    ensures a * b <= a * c
  {
  }

  /** More nodes never mean fewer transmissions, and one known node already allows `mult` of them. */
  lemma {:induction false} RetransmitLimitMonotone(mult: nat, n: nat, n': nat)
    requires n <= n'
    ensures RetransmitLimit(mult, n) <= RetransmitLimit(mult, n')
    ensures n' >= 1 ==> RetransmitLimit(mult, n') >= mult
  {
    CeilLog10Exact(n + 1);
    CeilLog10Exact(n' + 1);
    assert CeilLog10(n + 1) <= CeilLog10(n' + 1);
    MulMonotone(mult, CeilLog10(n + 1), CeilLog10(n' + 1));
    if n' >= 1 {
      assert CeilLog10(n' + 1) >= 1;
      MulMonotone(mult, 1, CeilLog10(n' + 1));
    }
  }

  lemma {:induction false} Pow10Monotone(a: nat, b: nat)
    requires a <= b
    ensures Pow10(a) <= Pow10(b)
  {
    if a < b {
      Pow10Monotone(a, b - 1);
    }
  }

  /** The limit in powers of ten: the multiplier times the number of digits of the node count. */
  lemma {:induction false} RetransmitLimitExact(mult: nat, n: nat, e: nat)
    requires e >= 1 && Pow10(e - 1) <= n < Pow10(e)
    ensures RetransmitLimit(mult, n) == mult * e
  {
    CeilLog10Exact(n + 1);
    if CeilLog10(n + 1) < e {
      Pow10Monotone(CeilLog10(n + 1), e - 1);
    }
  }

  /** Every positive number has a number of digits, so the limit is known for every node count. */
  lemma {:induction false} Digits(n: nat) returns (e: nat)
    requires n >= 1
    ensures e >= 1 && Pow10(e - 1) <= n < Pow10(e)
  {
    if n < 10 {
      e := 1;
      assert Pow10(0) == 1 && Pow10(1) == 10 * Pow10(0);
    } else {
      e := Digits(n / 10);
      e := e + 1;
    }
  }

  lemma {:induction false} NoNodesNoLimit(mult: nat)
    ensures RetransmitLimit(mult, 0) == 0
  {
  }
}
