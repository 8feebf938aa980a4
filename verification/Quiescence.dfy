/** How much gossip a whole run can cause: every broadcast is paid for by something that cannot grow for ever. */
module Quiescence {
  import opened Wire
  import opened Protocol
  import opened ProtocolInvariant
  import opened ProtocolLaws

  function TotalPotential(m: Member, xs: seq<Name>): nat {
    if xs == [] then 0 else TotalPotential(m, xs[..|xs| - 1]) + Potential(m, xs[|xs| - 1])
  }

  /** What pays for broadcasts about ourselves: our counter, and leaving once. */
  function OwnPotential(m: Member): nat {
    m.counter + if m.leaving then 1 else 0
  }

  lemma {:induction false} SamePotential(m: Member, m': Member, xs: seq<Name>)
    requires forall i :: 0 <= i < |xs| ==> Potential(m, xs[i]) == Potential(m', xs[i])
    ensures TotalPotential(m, xs) == TotalPotential(m', xs)
  {
    hide Potential;
    if xs != [] {
      SamePotential(m, m', xs[..|xs| - 1]);
    }
  }

  lemma {:induction false} OneRaises(m: Member, m': Member, xs: seq<Name>, k: nat, gain: nat)
    requires k < |xs| && Potential(m, xs[k]) + gain <= Potential(m', xs[k])
    requires forall i :: 0 <= i < |xs| && i != k ==> Potential(m, xs[i]) == Potential(m', xs[i])
    ensures TotalPotential(m, xs) + gain <= TotalPotential(m', xs)
  {
    hide Potential;
    if k == |xs| - 1 {
      SamePotential(m, m', xs[..|xs| - 1]);
    } else {
      OneRaises(m, m', xs[..|xs| - 1], k, gain);
    }
  }

  lemma {:induction false} OthersKeepPotential(m: Member, e: Event, x: Name)
    requires Inv(m) && x != m.Self() && !About(e, x)
    ensures Potential(Apply(m, e), x) == Potential(m, x)
  {
    hide Inv, Apply;
    OtherEvents(m, e, x);
  }

  /** A message about somebody else leaves our counter alone. */
  lemma {:induction false} RemoteKeepsOwn(m: Member, msg: Message, env: Env)
    requires msg.node != m.Self()
    ensures OwnPotential(Handle(m, msg, env)) == OwnPotential(m)
  {
  }

  /** Each broadcast that a message about ourselves causes raises our counter, unless it makes the counter wrap. */
  lemma {:induction false} OwnMessagePays(m: Member, msg: Message, env: Env)
    requires Inv(m) && Current(m) && msg.node == m.Self()
    ensures OwnPotential(m) + (Handle(m, msg, env).submitted - m.submitted) <= OwnPotential(Handle(m, msg, env)) <==>
            !WrapsUs(m, msg)
  {
    assert SlotOk(m, m.Self());
    RefutationBeatsAccusation(m.counter, msg.inc);
    if WrapsUs(m, msg) {
      WrapsToZero(m, msg, env);
    }
    hide RefutingIncarnation;
  }

  lemma {:induction false} OwnStepPays(m: Member, e: Event)
    requires Inv(m) && Current(m) && !e.Receive? && m.counter < UINT32_MAX - 1
    ensures OwnPotential(m) + (Apply(m, e).submitted - m.submitted) <= OwnPotential(Apply(m, e))
  {
    assert SlotOk(m, m.Self());
    if e.UpdateNow? && !m.leaving {
      UpdateIsRefuted(m, e.env);
    }
  }

  /** The event is about ourselves or one of `addrs`, under its address and with an incarnation up to `bound`. */
  predicate Mentions(self: Name, e: Event, addrs: map<Name, Address>, bound: U32) {
    e.Receive? ==>
      && e.msg.inc <= bound
      && (e.msg.node == self || e.msg.node in addrs)
      && (e.msg.Alive? && e.msg.node in addrs ==> e.msg.addr == addrs[e.msg.node])
  }

  /** `xs` lists the names of `addrs` once each, ourselves not among them. */
  ghost predicate Lists(xs: seq<Name>, self: Name, addrs: map<Name, Address>) {
    && self !in addrs && NoDuplicates(xs)
    && (forall i :: 0 <= i < |xs| ==> xs[i] in addrs)
    && (forall x :: x in addrs ==> x in xs)
  }

  /** What the member knows about them is in line with that. */
  predicate AllKnown(m: Member, addrs: map<Name, Address>, bound: U32) {
    m.counter <= bound && forall x :: x in addrs ==> Known(m, x, addrs[x], bound)
  }

  lemma {:induction false} EventPays(m: Member, e: Event, xs: seq<Name>, addrs: map<Name, Address>, bound: U32)
    requires Inv(m) && Current(m) && Lists(xs, m.Self(), addrs)
    requires AllKnown(m, addrs, bound) && Mentions(m.Self(), e, addrs, bound)
    requires bound < UINT32_MAX - 1
    ensures TotalPotential(m, xs) + OwnPotential(m) + (Apply(m, e).submitted - m.submitted)
         <= TotalPotential(Apply(m, e), xs) + OwnPotential(Apply(m, e))
  {
    hide Inv, Potential, OwnPotential, Handle, Leave, Update, Retain;
    var m' := Apply(m, e);
    forall i | 0 <= i < |xs| && !About(e, xs[i]) ensures Potential(m, xs[i]) == Potential(m', xs[i]) {
      OthersKeepPotential(m, e, xs[i]);
    }
    if e.Receive? && e.msg.node != m.Self() {
      var k :| 0 <= k < |xs| && xs[k] == e.msg.node;
      assert Known(m, xs[k], addrs[xs[k]], bound);
      GossipPaysPotential(m, e.msg, e.env);
      OneRaises(m, m', xs, k, m'.submitted - m.submitted);
      RemoteKeepsOwn(m, e.msg, e.env);
    } else {
      SamePotential(m, m', xs);
      if e.Receive? {
        OwnMessagePays(m, e.msg, e.env);
      } else {
        OwnStepPays(m, e);
      }
    }
  }

  lemma {:induction false} EventKeepsKnown(m: Member, e: Event, addrs: map<Name, Address>, bound: U32)
    requires Inv(m) && m.Self() !in addrs && AllKnown(m, addrs, bound) && Mentions(m.Self(), e, addrs, bound)
    ensures Apply(m, e).counter <= bound ==> AllKnown(Apply(m, e), addrs, bound)
  {
    hide Inv, Known, Apply;
    forall x | x in addrs ensures Known(Apply(m, e), x, addrs[x], bound) {
      KnownKept(m, e, x, addrs[x], bound);
    }
  }

  /** A run in which no incarnation passes `bound`. */
  ghost predicate Bounded(m: Member, events: seq<Event>, addrs: map<Name, Address>, bound: U32) {
    && (forall i :: 0 <= i < |events| ==> Mentions(m.Self(), events[i], addrs, bound))
    && (forall i :: 0 <= i <= |events| ==> Run(m, events[..i]).counter <= bound)
  }

  lemma {:induction false} BoundedFront(m: Member, events: seq<Event>, addrs: map<Name, Address>, bound: U32)
    requires events != [] && Bounded(m, events, addrs, bound)
    ensures Bounded(m, events[..|events| - 1], addrs, bound)
    ensures Run(m, events).counter <= bound && Mentions(m.Self(), events[|events| - 1], addrs, bound)
  {
    hide Run, Mentions;
    var front := events[..|events| - 1];
    assert events[..|events|] == events;
    assert forall i :: 0 <= i < |front| ==> front[i] == events[i];
    assert forall i :: 0 <= i <= |front| ==> front[..i] == events[..i];
  }

  lemma {:induction false} StepInRun(m: Member, e: Event, xs: seq<Name>, addrs: map<Name, Address>, bound: U32)
    requires Inv(m) && Current(m) && Lists(xs, m.Self(), addrs)
    requires AllKnown(m, addrs, bound) && Mentions(m.Self(), e, addrs, bound)
    requires bound < UINT32_MAX - 1 && Apply(m, e).counter <= bound
    ensures var m' := Apply(m, e);
            && Inv(m') && m'.cfg == m.cfg && Current(m') && AllKnown(m', addrs, bound)
            && TotalPotential(m, xs) + OwnPotential(m) + (m'.submitted - m.submitted)
            <= TotalPotential(m', xs) + OwnPotential(m')
  {
    hide Inv, Apply, TotalPotential, OwnPotential, Mentions, Known;
    ApplyKeeps(m, e);
    ApplyCurrent(m, e);
    EventKeepsKnown(m, e, addrs, bound);
    EventPays(m, e, xs, addrs, bound);
  }

  lemma {:induction false} RunPays(m: Member, events: seq<Event>, xs: seq<Name>, addrs: map<Name, Address>, bound: U32)
    requires Inv(m) && Current(m) && Lists(xs, m.Self(), addrs)
    requires AllKnown(m, addrs, bound) && Bounded(m, events, addrs, bound) && bound < UINT32_MAX - 1
    ensures var m' := Run(m, events);
            && Inv(m') && m'.cfg == m.cfg && Current(m') && AllKnown(m', addrs, bound)
            && TotalPotential(m, xs) + OwnPotential(m) + (m'.submitted - m.submitted)
            <= TotalPotential(m', xs) + OwnPotential(m')
  {
    hide Inv, Lists, AllKnown, Mentions, Apply, TotalPotential, OwnPotential, Bounded;
    if events != [] {
      var front, last := events[..|events| - 1], events[|events| - 1];
      BoundedFront(m, events, addrs, bound);
      RunPays(m, front, xs, addrs, bound);
      StepInRun(Run(m, front), last, xs, addrs, bound);
    }
  }

  lemma {:induction false} TotalBounded(m: Member, xs: seq<Name>, addrs: map<Name, Address>, bound: U32)
    requires Inv(m) && AllKnown(m, addrs, bound) && forall i :: 0 <= i < |xs| ==> xs[i] in addrs
    ensures TotalPotential(m, xs) <= |xs| * (258 * (3 * bound + 3))
  {
    hide Inv, Potential;
    if xs != [] {
      var last := xs[|xs| - 1];
      assert Known(m, last, addrs[last], bound);
      RankBounded(m, last, bound);
      TotalBounded(m, xs[..|xs| - 1], addrs, bound);
    }
  }

  /** Quiescence of the whole member: while no incarnation passes `bound`, a run of any length over n other members
      submits at most n * 258 * (3 * bound + 3) + bound + 1 broadcasts, however often messages are repeated. */
  lemma {:induction false} AllGossipQuiesces(m: Member, events: seq<Event>, xs: seq<Name>, addrs: map<Name, Address>,
                                             bound: U32)
    requires Inv(m) && Current(m) && Lists(xs, m.Self(), addrs)
    requires AllKnown(m, addrs, bound) && Bounded(m, events, addrs, bound) && bound < UINT32_MAX - 1
    ensures Run(m, events).submitted <= m.submitted + |xs| * (258 * (3 * bound + 3)) + bound + 1
  {
    hide Inv, Bounded, Run, TotalPotential;
    RunPays(m, events, xs, addrs, bound);
    TotalBounded(Run(m, events), xs, addrs, bound);
  }

  // ---------------------------------------------------------------- beyond the bound

  /** An accusation that brings our counter to UINT32_MAX - 1, and an update that makes it wrap. */
  function Rounds(self: Name, env: Env, n: nat): seq<Event> {
    if n == 0 then []
    else Rounds(self, env, n - 1) + [Receive(Suspect(UINT32_MAX - 2, self, ""), env), UpdateNow(env)]
  }

  lemma {:induction false} AccusedOnce(m: Member, env: Env)
    requires Inv(m) && Current(m) && !m.leaving && m.counter <= UINT32_MAX - 2
    ensures var m' := Handle(m, Suspect(UINT32_MAX - 2, m.Self(), ""), env);
            && Inv(m') && m'.cfg == m.cfg && Current(m') && !m'.leaving
            && m'.counter == UINT32_MAX - 1 && m'.submitted == m.submitted + 1
  {
    var s := Suspect(UINT32_MAX - 2, m.Self(), "");
    assert SlotOk(m, m.Self());
    HandleKeeps(m, s, env);
    HandleCurrent(m, s, env);
    RefutationBeatsAccusation(m.counter, s.inc);
    hide Inv, Current, SlotOk, RefutingIncarnation;
  }

  lemma {:induction false} WrappedByUpdate(m: Member, env: Env)
    requires Inv(m) && Current(m) && !m.leaving && m.counter == UINT32_MAX - 1
    ensures var m' := Update(m, env);
            && Inv(m') && m'.cfg == m.cfg && Current(m') && !m'.leaving
            && m'.counter == 0 && m'.submitted == m.submitted + 1
  {
    assert SlotOk(m, m.Self());
    UpdateKeeps(m, env);
    UpdateCurrent(m, env);
    UpdateIsRefuted(m, env);
    hide Inv, Current, SlotOk, Update;
  }

  lemma {:induction false} OneRound(m: Member, env: Env)
    requires Inv(m) && Current(m) && !m.leaving && m.counter <= UINT32_MAX - 2
    ensures var m1 := Apply(m, Receive(Suspect(UINT32_MAX - 2, m.Self(), ""), env));
            && m1.counter == UINT32_MAX - 1
            && var m2 := Apply(m1, UpdateNow(env));
               && Inv(m2) && m2.cfg == m.cfg && Current(m2) && !m2.leaving
               && m2.counter == 0 && m2.submitted == m.submitted + 2
  {
    hide Handle, Update;
    AccusedOnce(m, env);
    WrappedByUpdate(Handle(m, Suspect(UINT32_MAX - 2, m.Self(), ""), env), env);
  }

  lemma {:induction false} BoundedAtStart(m: Member, addrs: map<Name, Address>, bound: U32)
    requires m.counter <= bound
    ensures Bounded(m, [], addrs, bound)
  {
  }

  lemma {:induction false} BoundedNext(m: Member, events: seq<Event>, e: Event, addrs: map<Name, Address>, bound: U32)
    requires Bounded(m, events, addrs, bound) && Mentions(m.Self(), e, addrs, bound)
    requires Apply(Run(m, events), e).counter <= bound
    ensures Bounded(m, events + [e], addrs, bound) && Run(m, events + [e]) == Apply(Run(m, events), e)
  {
    var more := events + [e];
    assert more[..|events|] == events;
    forall i | 0 <= i <= |more| ensures Run(m, more[..i]).counter <= bound {
      if i <= |events| {
        assert more[..i] == events[..i];
      } else {
        assert more[..i] == more;
      }
    }
  }

  lemma {:induction false} RoundsRun(cfg: Config, env: Env, n: nat)
    ensures var m, events := Start(cfg, env), Rounds(cfg.name, env, n);
            && Bounded(m, events, map[], UINT32_MAX - 1)
            && var m' := Run(m, events);
               && Inv(m') && m'.cfg == cfg && Current(m') && !m'.leaving && m'.counter <= UINT32_MAX - 2
               && m'.submitted == m.submitted + 2 * n
  {
    hide Start, Inv, Current, Apply, Bounded;
    StartKeeps(cfg, env);
    var m := Start(cfg, env);
    if n == 0 {
      BoundedAtStart(m, map[], UINT32_MAX - 1);
    } else {
      var front := Rounds(cfg.name, env, n - 1);
      var e := Receive(Suspect(UINT32_MAX - 2, cfg.name, ""), env);
      RoundsRun(cfg, env, n - 1);
      var m0 := Run(m, front);
      OneRound(m0, env);
      BoundedNext(m, front, e, map[], UINT32_MAX - 1);
      assert front + [e] + [UpdateNow(env)] == Rounds(cfg.name, env, n);
      BoundedNext(m, front + [e], UpdateNow(env), map[], UINT32_MAX - 1);
    }
  }

  /** The bound on incarnations is needed as it is: up to UINT32_MAX - 1 a run can submit any number of broadcasts. */
  lemma {:induction false} GossipUnbounded(cfg: Config, env: Env, n: nat)
    ensures var m, events := Start(cfg, env), Rounds(cfg.name, env, n);
            && Bounded(m, events, map[], UINT32_MAX - 1)
            && Run(m, events).submitted == m.submitted + 2 * n
  {
    RoundsRun(cfg, env, n);
  }
}
