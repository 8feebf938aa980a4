/** Suspicion timers: counting independent confirmations and shortening the timeout. */
module Suspicions {
  import opened Wire

  // ---------------------------------------------------------------- confirmations

  /** `n`, `k` and `confirmations` of a suspicion; the originator counts as a confirmer from the start. */
  datatype Tally = Tally(confirmers: set<Name>, n: nat, k: nat)

  function Opened(from: Name, k: nat): Tally {
    Tally({from}, 0, k)
  }

  /** `Confirm` stops only beyond k, so it takes one confirmation more than the timer needs. */
  predicate Accepts(t: Tally, from: Name) {
    t.n <= t.k && from !in t.confirmers
  }

  function Confirmed(t: Tally, from: Name): Tally {
    if Accepts(t, from) then Tally(t.confirmers + {from}, t.n + 1, t.k) else t
  }

  function ConfirmedAll(t: Tally, froms: seq<Name>): Tally {
    if froms == [] then t else Confirmed(ConfirmedAll(t, froms[..|froms| - 1]), froms[|froms| - 1])
  }

  function Distinct(froms: seq<Name>): set<Name> {
    set i | 0 <= i < |froms| :: froms[i]
  }

  /** `t` is what the confirmers `others` (the originator not among them) leave behind. */
  ghost predicate Counts(t: Tally, from: Name, k: nat, others: set<Name>) {
    && from !in others
    && t.k == k
    && t.n == (if |others| <= k then |others| else k + 1)
    && t.n == |t.confirmers| - 1
    && from in t.confirmers
    && (t.n <= k ==> t.confirmers == others + {from})
  }

  lemma {:induction false} ConfirmationCounted(t: Tally, from: Name, k: nat, others: set<Name>, last: Name)
    requires Counts(t, from, k, others)
    ensures Counts(Confirmed(t, last), from, k, others + {last} - {from})
  {
    if last == from || last in others {
      assert others + {last} - {from} == others;
    } else {
      assert others + {last} - {from} == others + {last};
      assert t.n <= k ==> others + {last} + {from} == t.confirmers + {last};
    }
  }

  lemma {:induction false} DistinctGrows(froms: seq<Name>)
    requires froms != []
    ensures Distinct(froms) == Distinct(froms[..|froms| - 1]) + {froms[|froms| - 1]}
  {
  }

  /** After any sequence of confirmations, the count is the number of distinct confirmers other than the
      originator, cut off at k + 1; while it is not cut off, exactly those names are recorded. */
  lemma {:induction false} ConfirmationsCounted(from: Name, k: nat, froms: seq<Name>)
    ensures Counts(ConfirmedAll(Opened(from, k), froms), from, k, Distinct(froms) - {from})
  {
    if froms != [] {
      hide Counts, Confirmed, Distinct, Opened;
      var front, last := froms[..|froms| - 1], froms[|froms| - 1];
      ConfirmationsCounted(from, k, front);
      ConfirmationCounted(ConfirmedAll(Opened(from, k), front), from, k, Distinct(front) - {from}, last);
      DistinctGrows(froms);
      assert Distinct(front) - {from} + {last} - {from} == Distinct(front) + {last} - {from};
    } else {
      assert Distinct(froms) - {from} == {};
    }
  }

  // ---------------------------------------------------------------- timeouts

  /** All that the timeouts need from a logarithm. */
  ghost predicate IsLog(lg: nat -> real) {
    lg(1) == 0.0 && forall a: nat, b: nat :: 1 <= a < b ==> lg(a) < lg(b)
  }

  /** Conversion of a `double` to an integer drops the fraction. */
  function Truncate(r: real): int {
    if r >= 0.0 then r.Floor else -((-r).Floor)
  }

  lemma {:induction false} TruncateMonotone(r: real, q: real)
    requires r <= q
    ensures Truncate(r) <= Truncate(q)
  {
  }

  /** Total time a suspicion with `n` of `k` confirmations may last. */
  function Timeout(lg: nat -> real, n: nat, k: nat, min: int, max: int): int
    requires lg(k + 1) != 0.0
  {
    Truncate(max as real - lg(n + 1) / lg(k + 1) * (max - min) as real)
  }

  lemma {:induction false} ScaleMonotone(a: real, b: real, d: real)
    requires a <= b && d >= 0.0
    ensures a * d <= b * d
  {
  }

  lemma {:induction false} FractionMonotone(a: real, b: real, c: real, d: real)
    requires a <= b && c > 0.0 && d >= 0.0
    ensures a / c * d <= b / c * d
  {
    assert a / c <= b / c;
    ScaleMonotone(a / c, b / c, d);
  }

  /** More confirmations never lengthen the timeout. */
  lemma {:induction false} TimeoutMonotone(lg: nat -> real, n: nat, n': nat, k: nat, min: int, max: int)
    requires IsLog(lg) && k >= 1 && min <= max && n <= n'
    ensures Timeout(lg, n', k, min, max) <= Timeout(lg, n, k, min, max)
  {
    assert lg(1) < lg(k + 1);
    assert n < n' ==> lg(n + 1) < lg(n' + 1);
    FractionMonotone(lg(n + 1), lg(n' + 1), lg(k + 1), (max - min) as real);
    TruncateMonotone(max as real - lg(n' + 1) / lg(k + 1) * (max - min) as real,
                     max as real - lg(n + 1) / lg(k + 1) * (max - min) as real);
  }

  /** No confirmation means the maximum, k of them the minimum. */
  lemma {:induction false} TimeoutEnds(lg: nat -> real, k: nat, min: int, max: int)
    requires IsLog(lg) && k >= 1
    ensures Timeout(lg, 0, k, min, max) == max && Timeout(lg, k, k, min, max) == min
  {
    assert lg(1) < lg(k + 1);
    assert lg(0 + 1) / lg(k + 1) == 0.0;
    assert lg(k + 1) / lg(k + 1) == 1.0;
  }

  lemma {:induction false} RatioAbove(a: real, b: real)
    requires a > b > 0.0
    ensures a / b > 1.0
  {
    assert a / b * b == a;
    if a / b <= 1.0 {
      ScaleMonotone(a / b, 1.0, b);
    }
  }

  lemma {:induction false} StretchAbove(f: real, d: real)
    requires f > 1.0 && d > 0.0
    ensures f * d > d
  {
  }

  lemma {:induction false} TimeoutBelowMin(lg: nat -> real, n: nat, k: nat, min: int, max: int)
    requires IsLog(lg) && k >= 1 && 0 < min < max && n > k
    ensures Timeout(lg, n, k, min, max) < min
  {
    assert 0.0 == lg(1) < lg(k + 1) < lg(n + 1);
    var f, d := lg(n + 1) / lg(k + 1), (max - min) as real;
    RatioAbove(lg(n + 1), lg(k + 1));
    StretchAbove(f, d);
    assert max as real - f * d < min as real;
  }

  /** The timeout stays within its bounds up to k confirmations; the extra confirmation that `Confirm` accepts
      takes it below a positive minimum, unless both bounds coincide. */
  lemma {:induction false} TimeoutWithinBounds(lg: nat -> real, n: nat, k: nat, min: int, max: int)
    requires IsLog(lg) && k >= 1 && min <= max
    ensures Timeout(lg, n, k, min, max) <= max
    ensures n <= k || min == max ==> min <= Timeout(lg, n, k, min, max)
    ensures min > 0 ==> (min <= Timeout(lg, n, k, min, max) <==> n <= k || min == max)
  {
    TimeoutEnds(lg, k, min, max);
    TimeoutMonotone(lg, 0, n, k, min, max);
    if min == max {
      assert lg(n + 1) / lg(k + 1) * (max - min) as real == 0.0;
    } else if n <= k {
      TimeoutMonotone(lg, n, k, k, min, max);
    } else if min > 0 {
      TimeoutBelowMin(lg, n, k, min, max);
    }
  }

  function NodeScale(log10: nat -> real, n: nat): real {
    if log10(1 + n) < 1.0 then 1.0 else log10(1 + n)
  }

  function Scaled(mult: nat, scale: real, interval: nat): real {
    mult as real * scale * interval as real
  }

  /** `suspicionTimeout`: the node scale is never below one. */
  function SuspicionTimeout(log10: nat -> real, mult: nat, n: nat, interval: nat): int {
    Truncate(Scaled(mult, NodeScale(log10, n), interval))
  }

  lemma {:induction false} ScaledMonotone(mult: nat, a: real, b: real, interval: nat)
    requires a <= b
    ensures Scaled(mult, a, interval) <= Scaled(mult, b, interval)
  {
    ScaleMonotone(a, b, mult as real);
    ScaleMonotone(mult as real * a, mult as real * b, interval as real);
  }

  /** Never below one multiple of the interval, and never shorter in a larger cluster. */
  lemma {:induction false} SuspicionTimeoutMonotone(log10: nat -> real, mult: nat, n: nat, n': nat, interval: nat)
    requires IsLog(log10) && n <= n'
    ensures mult * interval <= SuspicionTimeout(log10, mult, n, interval) <= SuspicionTimeout(log10, mult, n', interval)
  {
    assert n < n' ==> log10(1 + n) < log10(1 + n');
    var a, b := NodeScale(log10, n), NodeScale(log10, n');
    assert 1.0 <= a <= b;
    assert Scaled(mult, 1.0, interval) == (mult * interval) as real;
    assert Truncate((mult * interval) as real) == mult * interval;
    ScaledMonotone(mult, 1.0, a, interval);
    ScaledMonotone(mult, a, b, interval);
    hide Scaled, NodeScale, Truncate;
    TruncateMonotone(Scaled(mult, 1.0, interval), Scaled(mult, a, interval));
    TruncateMonotone(Scaled(mult, a, interval), Scaled(mult, b, interval));
  }

  lemma {:induction false} LogPositive(lg: nat -> real, k: nat)
    requires IsLog(lg) && k >= 1
    ensures lg(k + 1) > 0.0
  {
    assert lg(1) < lg(k + 1);
  }

  /** `t` is multiplier times node scale times interval without its fraction, the scale being the logarithm of the node
      count and at least one. */
  ghost predicate IsSuspicionTimeout(t: int, log10: nat -> real, mult: nat, n: nat, interval: nat) {
    var exact := mult as real * (if log10(1 + n) >= 1.0 then log10(1 + n) else 1.0) * interval as real;
    t as real <= exact < t as real + 1.0
  }

  lemma {:induction false} SuspicionTimeoutExact(log10: nat -> real, mult: nat, n: nat, interval: nat)
    ensures IsSuspicionTimeout(SuspicionTimeout(log10, mult, n, interval), log10, mult, n, interval)
  {
    ScaledMonotone(mult, 0.0, NodeScale(log10, n), interval);
    assert Scaled(mult, 0.0, interval) == 0.0;
  }

  lemma {:induction false} Unscale(a: real, l: real, d: real, x: real)
    requires l > 0.0 && x == a / l * d
    ensures x * l == a * d
  {
    var q := a / l;
    assert q * l == a;
    assert x * l == q * d * l == q * l * d;
  }

  /** A product, to be taken as one number where linear reasoning is enough. */
  function Times(a: real, b: real): real {
    a * b
  }

  lemma {:induction false} ScaleBelow(u: real, x: real, l: real)
    requires l > 0.0 && u < x + 1.0
    ensures Times(u, l) < Times(x, l) + l
  {
    var g := x + 1.0 - u;
    assert g * l > 0.0;
    assert x == g + u - 1.0;
    assert x * l == g * l + u * l - l;
  }

  lemma {:induction false} GapBound(u: real, x: real, l: real, p: real)
    requires l > 0.0 && -1.0 < u - x < 1.0 && Times(x, l) == p
    ensures -l < Times(u, l) - p < l
  {
    hide Times;
    ScaleBelow(u, x, l);
    ScaleBelow(x, u, l);
  }

  /** The fraction is dropped, whatever the sign. */
  lemma {:induction false} TruncatesTowardsZero(v: real)
    ensures v >= 0.0 ==> 0.0 <= Truncate(v) as real <= v < Truncate(v) as real + 1.0
    ensures v <= 0.0 ==> Truncate(v) as real - 1.0 < v <= Truncate(v) as real <= 0.0
  {
  }

  lemma {:induction false} TruncateNear(v: real)
    ensures -1.0 < v - Truncate(v) as real < 1.0
  {
  }

  /** Between its ends the timeout follows the logarithm of the number of confirmations, up to the dropped fraction. */
  lemma {:induction false} TimeoutInterpolates(lg: nat -> real, n: nat, k: nat, min: int, max: int)
    requires IsLog(lg) && k >= 1
    ensures lg(k + 1) > 0.0
    ensures var gap := (max - Timeout(lg, n, k, min, max)) as real * lg(k + 1) - lg(n + 1) * (max - min) as real;
            -lg(k + 1) < gap < lg(k + 1)
  {
    LogPositive(lg, k);
    hide IsLog, Truncate;
    var x := lg(n + 1) / lg(k + 1) * (max - min) as real;
    var t := Timeout(lg, n, k, min, max);
    assert t == Truncate(max as real - x);
    TruncateNear(max as real - x);
    Unscale(lg(n + 1), lg(k + 1), (max - min) as real, x);
    assert (max - t) as real == max as real - t as real;
    var u, l, a, d := (max - t) as real, lg(k + 1), lg(n + 1), (max - min) as real;
    GapBound(u, x, l, a * d);
  }

  // ---------------------------------------------------------------- the timer object

  /** What the timer runs: the closure over the subject and the time the suspicion was raised. */
  datatype Callback = Callback(node: Name, raised: int)

  class Suspicion {
    const k: nat
    const min: int
    const max: int
    const start: int
    const f: Callback
    const lg: nat -> real
    var n: nat
    var confirmations: set<Name>
    var running: bool
    var firesAt: int

    ghost function Count(): Tally
      reads this
    {
      Tally(confirmations, n, k)
    }

    /** A running timer ends when the timeout for the current count is over, counted from the start. */
    ghost predicate Valid()
      reads this
    {
      && IsLog(lg) && min <= max
      && (running && k >= 1 ==> lg(k + 1) != 0.0 && firesAt == start + Timeout(lg, n, k, min, max))
      && (running && k == 0 && n == 0 ==> firesAt == start + min)
    }

    constructor (from: Name, k: nat, min: int, max: int, f: Callback, lg: nat -> real, now: int)
      requires IsLog(lg) && min <= max
      ensures Valid() && Count() == Opened(from, k) && this.f == f && this.lg == lg
      ensures this.min == min && this.max == max && start == now
      ensures running && firesAt == now + if k < 1 then min else max
    {
      this.k, this.min, this.max, this.f, this.lg, this.start := k, min, max, f, lg, now;
      n, confirmations, running := 0, {from}, true;
      firesAt := now + if k < 1 then min else max;
      new;
      if k >= 1 {
        assert lg(1) < lg(k + 1);
        TimeoutEnds(lg, k, min, max);
      }
    }

    /** Time left; with k == 0 the fraction divides by zero and the result is whatever `undefined` is. */
    method Remaining(now: int, undefined: int) returns (remain: int)
      requires Valid()
      ensures k >= 1 ==> lg(k + 1) != 0.0 && remain == start + Timeout(lg, n, k, min, max) - now
      ensures k == 0 ==> remain == undefined
    {
      if k == 0 {
        return undefined;
      }
      assert lg(1) < lg(k + 1);
      var timeout := Timeout(lg, n, k, min, max);
      var elapsed := now - start;
      remain := timeout - elapsed;
    }

    /** A new confirmation at `now` finds the shortened timeout of a running timer over. */
    ghost predicate DueAt(from: Name, now: int, undefined: int)
      requires Valid()
      reads this
    {
      && Accepts(Count(), from) && running
      && (if k == 0 then undefined <= 0 else LogPositive(lg, k); now >= start + Timeout(lg, n + 1, k, min, max))
    }

    /** `fire` reports that the callback is due at once; otherwise a running timer keeps running, for the rest of the
        shortened timeout. */
    method Confirm(from: Name, now: int, undefined: int) returns (accepted: bool, fire: bool)
      requires Valid()
      modifies this
      ensures Valid()
      ensures accepted == Accepts(old(Count()), from)
      ensures Count() == Confirmed(old(Count()), from)
      ensures fire == old(DueAt(from, now, undefined))
      ensures running == (old(running) && !fire)
      ensures k >= 1 && running ==> firesAt <= old(firesAt)
      ensures !accepted ==> firesAt == old(firesAt)
    {
      accepted, fire := false, false;
      if n > k {
        return;
      }
      if from in confirmations {
        return;
      }
      accepted := true;
      if k >= 1 {
        assert lg(1) < lg(k + 1);
        TimeoutMonotone(lg, n, n + 1, k, min, max);
      }
      var wasRunning := running;
      running := false;
      confirmations := confirmations + {from};
      n := n + 1;
      var remain := Remaining(now, undefined);
      if wasRunning {
        if remain > 0 {
          running, firesAt := true, now + remain;
        } else {
          fire := true;
        }
      }
    }
  }
}
