/** Round-robin probing over a list that is reshuffled at every wrap-around. */
module ProbeSchedule {
  import opened Wire

  datatype Outcome = Outcome(order: seq<Name>, index: nat, target: Option<Name>)

  /** One call of `probe` from the state where `checks` nodes were already skipped. `eligible` are the members that
      are neither ourselves nor dead or left; `shuffled` is the order a wrap-around would leave. */
  function Call(order: seq<Name>, index: nat, eligible: set<Name>, shuffled: seq<Name>, checks: nat): Outcome
    requires |shuffled| == |order|
    decreases |order| - checks
  {
    if checks >= |order| then Outcome(order, index, None)
    else if index >= |order| then Call(shuffled, 0, eligible, shuffled, checks + 1)
    else if order[index] in eligible then Outcome(order, index + 1, Some(order[index]))
    else Call(order, index + 1, eligible, shuffled, checks + 1)
  }

  lemma {:induction false} CallKeepsLength(order: seq<Name>, index: nat, eligible: set<Name>, shuffled: seq<Name>,
                                           checks: nat)
    requires |shuffled| == |order|
    ensures |Call(order, index, eligible, shuffled, checks).order| == |order|
    decreases |order| - checks
  {
    if checks < |order| {
      if index >= |order| {
        CallKeepsLength(shuffled, 0, eligible, shuffled, checks + 1);
      } else if order[index] !in eligible {
        CallKeepsLength(order, index + 1, eligible, shuffled, checks + 1);
      }
    }
  }

  /** The targets of consecutive calls, one possible shuffle for each. */
  function Targets(order: seq<Name>, index: nat, eligible: set<Name>, shuffles: seq<seq<Name>>): seq<Option<Name>>
    requires forall i :: 0 <= i < |shuffles| ==> |shuffles[i]| == |order|
    decreases |shuffles|
  {
    if shuffles == [] then []
    else
      var o := Call(order, index, eligible, shuffles[0], 0);
      CallKeepsLength(order, index, eligible, shuffles[0], 0);
      [o.target] + Targets(o.order, o.index, eligible, shuffles[1..])
  }

  /** Ourselves, dead and left members are never probed. */
  lemma {:induction false} OnlyEligibleProbed(order: seq<Name>, index: nat, eligible: set<Name>, shuffled: seq<Name>,
                                              checks: nat)
    requires |shuffled| == |order|
    ensures Call(order, index, eligible, shuffled, checks).target.Some? ==>
              Call(order, index, eligible, shuffled, checks).target.value in eligible
    decreases |order| - checks
  {
    if checks < |order| {
      if index >= |order| {
        OnlyEligibleProbed(shuffled, 0, eligible, shuffled, checks + 1);
      } else if order[index] !in eligible {
        OnlyEligibleProbed(order, index + 1, eligible, shuffled, checks + 1);
      }
    }
  }

  // ---------------------------------------------------------------- completeness

  /** Eligible members that the current pass still has ahead of it. */
  ghost function Ahead(order: seq<Name>, index: nat, eligible: set<Name>): set<Name> {
    set i | index <= i < |order| && order[i] in eligible :: order[i]
  }

  /** Moving past an eligible member removes just that one; moving past another removes nothing. */
  lemma {:induction false} AheadStep(order: seq<Name>, index: nat, eligible: set<Name>)
    requires NoDuplicates(order) && index < |order|
    ensures order[index] in eligible ==>
              && order[index] !in Ahead(order, index + 1, eligible)
              && Ahead(order, index, eligible) == Ahead(order, index + 1, eligible) + {order[index]}
    ensures order[index] !in eligible ==> Ahead(order, index, eligible) == Ahead(order, index + 1, eligible)
  {
  }

  /** While something eligible lies ahead, a call probes exactly one of those members, without wrapping. */
  lemma {:induction false} CallAhead(order: seq<Name>, index: nat, eligible: set<Name>, shuffled: seq<Name>,
                                     checks: nat)
    requires NoDuplicates(order) && |shuffled| == |order| && checks <= index
    requires Ahead(order, index, eligible) != {}
    ensures var o := Call(order, index, eligible, shuffled, checks);
            && o.order == order && o.target.Some?
            && o.target.value !in Ahead(order, o.index, eligible)
            && Ahead(order, index, eligible) == Ahead(order, o.index, eligible) + {o.target.value}
    decreases |order| - checks
  {
    var x :| x in Ahead(order, index, eligible);
    AheadStep(order, index, eligible);
    if order[index] !in eligible {
      CallAhead(order, index + 1, eligible, shuffled, checks + 1);
    }
  }

  /** After the wrap: the call goes on in the new order until it probes or has used up its checks. */
  lemma {:induction false} CallFromStart(order: seq<Name>, index: nat, eligible: set<Name>, checks: nat)
    requires NoDuplicates(order) && index < checks
    ensures var o := Call(order, index, eligible, order, checks);
            && o.order == order
            && Ahead(order, index, eligible) ==
               Ahead(order, o.index, eligible) + if o.target.Some? then {o.target.value} else {}
    decreases |order| - checks
  {
    if checks < |order| {
      AheadStep(order, index, eligible);
      if order[index] !in eligible {
        CallFromStart(order, index + 1, eligible, checks + 1);
      }
    }
  }

  /** A call that finds nothing ahead wraps; afterwards everything eligible is ahead again, except the member it
      probed, if any. */
  lemma {:induction false} CallWraps(order: seq<Name>, index: nat, eligible: set<Name>, shuffled: seq<Name>,
                                     checks: nat)
    requires NoDuplicates(shuffled) && NoDuplicates(order) && |shuffled| == |order|
    requires Ahead(order, index, eligible) == {} && Ahead(shuffled, 0, eligible) != {}
    requires checks < index && checks < |order|
    ensures var o := Call(order, index, eligible, shuffled, checks);
            && o.order == shuffled
            && Ahead(shuffled, 0, eligible) ==
               Ahead(shuffled, o.index, eligible) + if o.target.Some? then {o.target.value} else {}
    decreases |order| - checks
  {
    if index >= |order| {
      CallFromStart(shuffled, 0, eligible, checks + 1);
    } else {
      AheadStep(order, index, eligible);
      assert order[index] !in eligible;
      CallWraps(order, index + 1, eligible, shuffled, checks + 1);
    }
  }

  // A shuffle is any permutation.

  ghost predicate Shuffle(order: seq<Name>, shuffled: seq<Name>) {
    multiset(order) == multiset(shuffled)
  }

  lemma {:induction false} CountsOnce(s: seq<Name>, x: Name)
    requires NoDuplicates(s)
    ensures multiset(s)[x] <= 1
  {
    if s != [] {
      CountsOnce(s[1..], x);
      assert s == [s[0]] + s[1..];
      assert s[0] !in s[1..];
    }
  }

  lemma {:induction false} ShuffleKeeps(order: seq<Name>, shuffled: seq<Name>)
    requires NoDuplicates(order) && Shuffle(order, shuffled)
    ensures |shuffled| == |order| && NoDuplicates(shuffled)
    ensures forall x :: x in order <==> x in shuffled
  {
    assert |multiset(order)| == |order| && |multiset(shuffled)| == |shuffled|;
    forall x ensures x in order <==> x in shuffled {
      assert x in multiset(order) <==> x in multiset(shuffled);
    }
    forall i, j | 0 <= i < j < |shuffled| ensures shuffled[i] != shuffled[j] {
      CountsOnce(order, shuffled[j]);
      assert shuffled == shuffled[..j] + [shuffled[j]] + shuffled[j + 1..];
      assert shuffled[i] in multiset(shuffled[..j]);
    }
  }

  lemma {:induction false} ShuffleKeepsAhead(order: seq<Name>, shuffled: seq<Name>, eligible: set<Name>)
    requires forall x :: x in order <==> x in shuffled
    ensures Ahead(order, 0, eligible) == Ahead(shuffled, 0, eligible)
  {
    forall x | x in Ahead(order, 0, eligible) ensures x in Ahead(shuffled, 0, eligible) {
      assert x in shuffled;
    }
    forall x | x in Ahead(shuffled, 0, eligible) ensures x in Ahead(order, 0, eligible) {
      assert x in order;
    }
  }

  /** How many calls may pass before `x` is probed. */
  ghost function Patience(order: seq<Name>, index: nat, eligible: set<Name>, x: Name): nat {
    |Ahead(order, index, eligible)| +
    if x in Ahead(order, index, eligible) then 0 else 1 + |Ahead(order, 0, eligible)|
  }

  lemma {:induction false} SubsetSize(a: set<Name>, b: set<Name>)
    requires a <= b
    ensures |a| <= |b| && (a != b ==> |a| < |b|)
  {
    assert b == a + (b - a);
    assert a != b ==> b - a != {};
  }

  lemma {:induction false} AheadShrinks(order: seq<Name>, index: nat, eligible: set<Name>)
    ensures Ahead(order, index, eligible) <= Ahead(order, 0, eligible)
    ensures |Ahead(order, index, eligible)| <= |Ahead(order, 0, eligible)|
  {
    SubsetSize(Ahead(order, index, eligible), Ahead(order, 0, eligible));
  }

  /** One call probes `x` or uses up one unit of patience. */
  lemma {:induction false} PatienceShrinks(order: seq<Name>, index: nat, eligible: set<Name>, shuffled: seq<Name>,
                                           x: Name)
    requires NoDuplicates(order) && Shuffle(order, shuffled) && x in order && x in eligible
    requires |shuffled| == |order|
    ensures var o := Call(order, index, eligible, shuffled, 0);
            && (o.order == order || o.order == shuffled)
            && (o.target == Some(x) || Patience(o.order, o.index, eligible, x) < Patience(order, index, eligible, x))
  {
    ShuffleKeeps(order, shuffled);
    ShuffleKeepsAhead(order, shuffled, eligible);
    assert x in Ahead(order, 0, eligible);
    var o := Call(order, index, eligible, shuffled, 0);
    if Ahead(order, index, eligible) != {} {
      CallAhead(order, index, eligible, shuffled, 0);
    } else {
      CallWraps(order, index, eligible, shuffled, 0);
      AheadShrinks(shuffled, o.index, eligible);
    }
  }

  lemma {:induction false} ProbedInTime(order: seq<Name>, index: nat, eligible: set<Name>, shuffles: seq<seq<Name>>,
                                        x: Name)
    requires NoDuplicates(order) && x in order && x in eligible
    requires forall i :: 0 <= i < |shuffles| ==> Shuffle(order, shuffles[i]) && |shuffles[i]| == |order|
    requires |shuffles| >= Patience(order, index, eligible, x)
    ensures Some(x) in Targets(order, index, eligible, shuffles)
    decreases |shuffles|
  {
    if shuffles != [] {
      var o := Call(order, index, eligible, shuffles[0], 0);
      PatienceShrinks(order, index, eligible, shuffles[0], x);
      ShuffleKeeps(order, shuffles[0]);
      var rest := Targets(o.order, o.index, eligible, shuffles[1..]);
      assert Targets(order, index, eligible, shuffles) == [o.target] + rest;
      if o.target != Some(x) {
        ProbedInTime(o.order, o.index, eligible, shuffles[1..], x);
      }
    }
  }

  /** Time-bounded completeness: whatever the shuffles, twice as many consecutive calls as there are eligible
      members probe every one of them. */
  lemma {:induction false} ProbeCompleteness(order: seq<Name>, index: nat, eligible: set<Name>,
                                             shuffles: seq<seq<Name>>, x: Name)
    requires NoDuplicates(order) && x in order && x in eligible
    requires forall i :: 0 <= i < |shuffles| ==> Shuffle(order, shuffles[i]) && |shuffles[i]| == |order|
    requires |shuffles| >= 2 * |Ahead(order, 0, eligible)|
    ensures Some(x) in Targets(order, index, eligible, shuffles)
  {
    AheadShrinks(order, index, eligible);
    assert x in Ahead(order, 0, eligible);
    SubsetSize(Ahead(order, index, eligible), Ahead(order, 0, eligible));
    ProbedInTime(order, index, eligible, shuffles, x);
  }

  lemma {:induction false} NamesBounded(s: seq<Name>)
    ensures |set i | 0 <= i < |s| :: s[i]| <= |s|
  {
    if s != [] {
      var front := s[..|s| - 1];
      NamesBounded(front);
      assert (set i | 0 <= i < |s| :: s[i]) == (set i | 0 <= i < |front| :: front[i]) + {s[|s| - 1]};
    }
  }

  /** With ourselves in the list of N >= 2 members, 2N - 1 calls are more than enough. */
  lemma {:induction false} ProbeCompletenessBySize(order: seq<Name>, index: nat, eligible: set<Name>, self: Name,
                                                   shuffles: seq<seq<Name>>, x: Name)
    requires NoDuplicates(order) && x in order && x in eligible && self in order && self !in eligible
    requires forall i :: 0 <= i < |shuffles| ==> Shuffle(order, shuffles[i]) && |shuffles[i]| == |order|
    requires |shuffles| >= 2 * |order| - 1
    ensures Some(x) in Targets(order, index, eligible, shuffles)
  {
    var all := Ahead(order, 0, eligible);
    NamesBounded(order);
    SubsetSize(all + {self}, set i | 0 <= i < |order| :: order[i]);
    ProbeCompleteness(order, index, eligible, shuffles, x);
  }

  // ---------------------------------------------------------------- calls that probe nobody

  /** After the wrap: somebody is probed exactly if an eligible member stands within the remaining checks. */
  lemma {:induction false} ProbesAfterWrap(order: seq<Name>, index: nat, eligible: set<Name>, checks: nat)
    requires index < checks <= |order|
    ensures Call(order, index, eligible, order, checks).target.Some? <==>
            exists j :: index <= j < index + |order| - checks && order[j] in eligible
    decreases |order| - checks
  {
    if checks < |order| && order[index] !in eligible {
      ProbesAfterWrap(order, index + 1, eligible, checks + 1);
    }
  }

  lemma {:induction false} ProbesWithin(order: seq<Name>, index: nat, eligible: set<Name>, shuffled: seq<Name>,
                                        checks: nat)
    requires |shuffled| == |order| && checks <= index && checks <= |order|
    ensures Call(order, index, eligible, shuffled, checks).target.Some? <==>
            || (exists i :: index <= i < |order| && order[i] in eligible)
            || (exists j ::
                  0 <= j < (if index <= |order| then index else |order|) - 1 - checks && shuffled[j] in eligible)
    decreases |order| - checks
  {
    if checks < |order| {
      if index >= |order| {
        ProbesAfterWrap(shuffled, 0, eligible, checks + 1);
      } else if order[index] !in eligible {
        ProbesWithin(order, index + 1, eligible, shuffled, checks + 1);
      }
    }
  }

  /** A call probes somebody exactly if an eligible member lies ahead in the current order, or the reshuffled order
      has one among as many front places as the pass has behind it, less the check that the wrap-around uses up. */
  lemma {:induction false} CallProbesIff(order: seq<Name>, index: nat, eligible: set<Name>, shuffled: seq<Name>)
    requires |shuffled| == |order|
    ensures Call(order, index, eligible, shuffled, 0).target.Some? <==>
            || (exists i :: index <= i < |order| && order[i] in eligible)
            || (exists j :: 0 <= j < (if index <= |order| then index else |order|) - 1 && shuffled[j] in eligible)
  {
    ProbesWithin(order, index, eligible, shuffled, 0);
  }

  // ---------------------------------------------------------------- tightness

  /** Ineligible members cost one check each. */
  lemma {:induction false} SkipIneligible(order: seq<Name>, index: nat, eligible: set<Name>, shuffled: seq<Name>,
                                          checks: nat, to: nat)
    requires |shuffled| == |order| && index <= to <= |order| && checks + to - index <= |order|
    requires forall i :: index <= i < to ==> order[i] !in eligible
    ensures Call(order, index, eligible, shuffled, checks) == Call(order, to, eligible, shuffled, checks + to - index)
    decreases |order| - index
  {
    if index < to {
      SkipIneligible(order, index + 1, eligible, shuffled, checks + 1, to);
    }
  }

  /** As long as another eligible member comes first, the last one is not reached. */
  lemma {:induction false} LastWaits(order: seq<Name>, index: nat, eligible: set<Name>, shuffles: seq<seq<Name>>)
    requires NoDuplicates(order) && order != [] && order[|order| - 1] in eligible && index < |order|
    requires forall i :: 0 <= i < |shuffles| ==> |shuffles[i]| == |order|
    requires |shuffles| < |Ahead(order, index, eligible)|
    ensures Some(order[|order| - 1]) !in Targets(order, index, eligible, shuffles)
    decreases |shuffles|
  {
    if shuffles != [] {
      var x := order[|order| - 1];
      var o := Call(order, index, eligible, shuffles[0], 0);
      CallAhead(order, index, eligible, shuffles[0], 0);
      assert |Ahead(order, index, eligible)| == |Ahead(order, o.index, eligible)| + 1;
      var rest := Ahead(order, o.index, eligible);
      var y :| y in rest;
      assert o.index < |order| && x in rest;
      LastWaits(order, o.index, eligible, shuffles[1..]);
      assert Targets(order, index, eligible, shuffles) == [o.target] + Targets(order, o.index, eligible, shuffles[1..]);
    }
  }

  /** The order that keeps `x` waiting: just passed, then everybody else, then the dead; after the shuffle the dead come
      first and `x` last. */
  function Worst(x: Name, ys: seq<Name>, dead: seq<Name>): seq<Name> {
    [x] + ys + dead
  }

  function Reshuffled(x: Name, ys: seq<Name>, dead: seq<Name>): seq<Name> {
    dead + ys + [x]
  }

  ghost function AllOf(x: Name, ys: seq<Name>): set<Name> {
    (set i | 0 <= i < |ys| :: ys[i]) + {x}
  }

  lemma {:induction false} DeadAreOthers(x: Name, ys: seq<Name>, dead: seq<Name>, i: nat)
    requires NoDuplicates(Worst(x, ys, dead)) && i < |dead|
    ensures dead[i] !in AllOf(x, ys)
  {
    var order := Worst(x, ys, dead);
    assert order[1 + |ys| + i] == dead[i] && order[0] == x;
    assert forall k :: 0 <= k < |ys| ==> order[1 + k] == ys[k];
  }

  lemma {:induction false} WorstIsShuffled(x: Name, ys: seq<Name>, dead: seq<Name>)
    requires NoDuplicates(Worst(x, ys, dead))
    ensures Shuffle(Worst(x, ys, dead), Reshuffled(x, ys, dead)) && NoDuplicates(Reshuffled(x, ys, dead))
    ensures forall i :: 0 <= i < |dead| ==> dead[i] !in AllOf(x, ys)
  {
    assert multiset(Worst(x, ys, dead)) == multiset{x} + multiset(ys) + multiset(dead);
    ShuffleKeeps(Worst(x, ys, dead), Reshuffled(x, ys, dead));
    hide AllOf;
    forall i | 0 <= i < |dead| ensures dead[i] !in AllOf(x, ys) {
      DeadAreOthers(x, ys, dead, i);
    }
  }

  /** The call in between wraps around and probes nobody. */
  lemma {:induction false} EmptyCall(x: Name, ys: seq<Name>, dead: seq<Name>)
    requires NoDuplicates(Worst(x, ys, dead)) && |ys| <= |dead|
    ensures Call(Worst(x, ys, dead), 1 + |ys|, AllOf(x, ys), Reshuffled(x, ys, dead), 0)
         == Outcome(Reshuffled(x, ys, dead), |ys|, None)
  {
    var order, order', all := Worst(x, ys, dead), Reshuffled(x, ys, dead), AllOf(x, ys);
    WorstIsShuffled(x, ys, dead);
    hide AllOf, NoDuplicates, Shuffle;
    forall i | 1 + |ys| <= i < |order| ensures order[i] !in all {
      assert order[i] == dead[i - 1 - |ys|];
    }
    SkipIneligible(order, 1 + |ys|, all, order', 0, |order|);
    SkipIneligible(order', 0, all, order', |dead| + 1, |ys|);
  }

  lemma {:induction false} DistinctSize(s: seq<Name>)
    requires NoDuplicates(s)
    ensures |set i | 0 <= i < |s| :: s[i]| == |s|
  {
    if s != [] {
      var front := s[..|s| - 1];
      DistinctSize(front);
      assert (set i | 0 <= i < |s| :: s[i]) == (set i | 0 <= i < |front| :: front[i]) + {s[|s| - 1]};
    }
  }

  /** After the reshuffle all of them are ahead, `x` last. */
  lemma {:induction false} AheadAfterReshuffle(x: Name, ys: seq<Name>, dead: seq<Name>)
    requires NoDuplicates(Worst(x, ys, dead)) && |ys| <= |dead|
    ensures |Ahead(Reshuffled(x, ys, dead), |ys|, AllOf(x, ys))| == |ys| + 1
  {
    var order, all := Reshuffled(x, ys, dead), AllOf(x, ys);
    WorstIsShuffled(x, ys, dead);
    assert forall k :: 0 <= k < |ys| ==> order[|dead| + k] == ys[k];
    assert order[|dead| + |ys|] == x;
    assert Ahead(order, |ys|, all) == all;
    assert forall k :: 0 <= k < |ys| ==> Worst(x, ys, dead)[1 + k] == ys[k];
    assert forall i, j :: 0 <= i < j < |ys| ==> ys[i] != ys[j];
    DistinctSize(ys);
    assert x !in (set i | 0 <= i < |ys| :: ys[i]);
  }

  lemma {:induction false} WaitsFrom(x: Name, ys: seq<Name>, dead: seq<Name>, k: nat, shuffles: seq<seq<Name>>)
    requires NoDuplicates(Worst(x, ys, dead)) && |ys| <= |dead| && k <= |ys|
    requires |shuffles| == 2 * |ys| + 1 - k
    requires forall i :: 0 <= i < |shuffles| ==>
             shuffles[i] == Reshuffled(x, ys, dead) && |shuffles[i]| == |Worst(x, ys, dead)|
    ensures Some(x) !in Targets(Worst(x, ys, dead), 1 + k, AllOf(x, ys), shuffles)
    decreases |ys| - k
  {
    var order, order', all := Worst(x, ys, dead), Reshuffled(x, ys, dead), AllOf(x, ys);
    WorstIsShuffled(x, ys, dead);
    assert shuffles[0] == order';
    if k < |ys| {
      assert order[1 + k] == ys[k] && order[0] == x;
      assert Call(order, 1 + k, all, order', 0) == Outcome(order, 2 + k, Some(ys[k]));
      hide AllOf, Shuffle, Call, Worst, Reshuffled;
      WaitsFrom(x, ys, dead, k + 1, shuffles[1..]);
      assert Targets(order, 1 + k, all, shuffles) == [Some(ys[k])] + Targets(order, 2 + k, all, shuffles[1..]);
    } else {
      EmptyCall(x, ys, dead);
      AheadAfterReshuffle(x, ys, dead);
      assert order'[|order'| - 1] == x;
      LastWaits(order', |ys|, all, shuffles[1..]);
      assert Targets(order, 1 + k, all, shuffles) == [None] + Targets(order', |ys|, all, shuffles[1..]);
    }
  }

  /** The same shuffle every time. */
  function Always(shuffled: seq<Name>, calls: nat): seq<seq<Name>> {
    seq(calls, i => shuffled)
  }

  /** There are `e` eligible members, and 2e - 1 consecutive calls can all miss `x`, one of them. */
  ghost predicate Misses(order: seq<Name>, eligible: set<Name>, x: Name, shuffled: seq<Name>, e: nat) {
    && e >= 1 && |Ahead(order, 0, eligible)| == e
    && NoDuplicates(order) && x in order && x in eligible
    && Shuffle(order, shuffled) && |shuffled| == |order|
    && Some(x) !in Targets(order, 1, eligible, Always(shuffled, 2 * e - 1))
  }

  lemma {:induction false} AllCounted(x: Name, ys: seq<Name>, dead: seq<Name>)
    requires NoDuplicates(Worst(x, ys, dead))
    ensures Ahead(Worst(x, ys, dead), 0, AllOf(x, ys)) == AllOf(x, ys) && |AllOf(x, ys)| == |ys| + 1
  {
    var order := Worst(x, ys, dead);
    assert order[0] == x && forall k :: 0 <= k < |ys| ==> order[1 + k] == ys[k];
    assert forall i, j :: 0 <= i < j < |ys| ==> ys[i] != ys[j];
    DistinctSize(ys);
    assert x !in (set i | 0 <= i < |ys| :: ys[i]);
  }

  /** The bound of twice the number of eligible members is tight, however many there are: with `x`, any others `ys` and
      as many dead members, one call less can miss `x`. */
  lemma {:induction false} BoundIsTight(x: Name, ys: seq<Name>, dead: seq<Name>)
    requires NoDuplicates(Worst(x, ys, dead)) && |ys| <= |dead|
    ensures Misses(Worst(x, ys, dead), AllOf(x, ys), x, Reshuffled(x, ys, dead), |ys| + 1)
  {
    WorstIsShuffled(x, ys, dead);
    AllCounted(x, ys, dead);
    assert Worst(x, ys, dead)[0] == x;
    WaitsFrom(x, ys, dead, 0, Always(Reshuffled(x, ys, dead), 2 * (|ys| + 1) - 1));
    hide NoDuplicates, Shuffle, Targets;
  }

  /** Names for any number of members: xx...x, the longer the later. */
  function Unary(from: nat, n: nat): seq<Name> {
    seq(n, i requires 0 <= i < n => seq(from + i, j => 'x'))
  }

  lemma {:induction false} UnaryDistinct(e: nat)
    requires e >= 1
    ensures NoDuplicates(Worst("", Unary(1, e - 1), Unary(e, e)))
  {
    var order := Worst("", Unary(1, e - 1), Unary(e, e));
    forall i | 0 <= i < |order| ensures |order[i]| == i {
      if 1 <= i < e {
        assert order[i] == Unary(1, e - 1)[i - 1];
      } else if i >= e {
        assert order[i] == Unary(e, e)[i - e];
      }
    }
  }

  /** So for every number of eligible members some schedule of twice that many calls, less one, misses one of them. */
  lemma {:induction false} TightForEveryNumber(e: nat)
    requires e >= 1
    ensures exists order, eligible, x, shuffled :: Misses(order, eligible, x, shuffled, e)
  {
    hide Misses, Ahead, NoDuplicates, AllOf;
    UnaryDistinct(e);
    BoundIsTight("", Unary(1, e - 1), Unary(e, e));
  }
}
