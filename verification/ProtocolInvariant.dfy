/** What every handler keeps, whatever messages arrive. */
module ProtocolInvariant {
  import opened Wire
  import opened Suspicions
  import opened Protocol

  /** The queued message says what the table says: same subject, same state, and the same incarnation unless it is
      a suspicion that was gossiped again on confirmation. */
  predicate Agrees(msg: Message, n: Name, r: Record) {
    && msg.node == n
    && match msg
       case Alive(inc, _, addr) => r.status.StateAlive? && inc == r.inc && addr == r.addr
       case Suspect(inc, _, _) => r.status.StateSuspect? && inc >= r.inc
       case Dead(inc, node, from) => r.status == (if node == from then StateLeft else StateDead) && inc == r.inc
  }

  predicate TallyOk(t: Tally) {
    t.n <= t.k + 1 && t.k <= 255
  }

  /** Everything kept about one name. */
  predicate SlotOk(m: Member, n: Name) {
    && (n in m.timers ==> n in m.table)
    && (n in m.table ==> (n in m.timers <==> m.table[n].status.StateSuspect?))
    && (n in m.timers ==> m.timers[n].raised == m.table[n].changed && TallyOk(m.timers[n].tally))
    && (n in m.queue ==> n in m.table && Agrees(m.queue[n], n, m.table[n]))
    && (n in m.queue && m.queue[n].inc != m.table[n].inc ==> n in m.timers && m.timers[n].tally.n >= 1)
  }

  /** We see ourselves under our own address, as alive until we leave and as left afterwards. */
  predicate SelfOk(m: Member) {
    && m.Self() in m.table
    && m.table[m.Self()].addr == m.cfg.addr
    && m.table[m.Self()].status == (if m.leaving then StateLeft else StateAlive)
  }

  /** Our own record has the incarnation of our counter until we leave, and never a higher one. Unlike the rest, this
      depends on the counter not wrapping. */
  predicate Current(m: Member)
    requires m.Self() in m.table
  {
    m.table[m.Self()].inc <= m.counter && (!m.leaving ==> m.table[m.Self()].inc == m.counter)
  }

  ghost predicate Inv(m: Member) {
    SelfOk(m) && forall n :: SlotOk(m, n)
  }

  /** A step about `x` leaves every other name alone. */
  predicate SameSlot(m: Member, m': Member, n: Name) {
    && (n in m.table <==> n in m'.table) && (n in m.table ==> m.table[n] == m'.table[n])
    && (n in m.timers <==> n in m'.timers) && (n in m.timers ==> m.timers[n] == m'.timers[n])
    && (n in m.queue <==> n in m'.queue) && (n in m.queue ==> m.queue[n] == m'.queue[n])
  }

  lemma {:induction false} KnownLocality(m: Member, a: Message, bootstrap: bool, env: Env, n: Name)
    requires a.Alive? && a.node in m.table && n != a.node
    ensures SameSlot(m, AliveKnown(m, a, bootstrap, env), n) && AliveKnown(m, a, bootstrap, env).cfg == m.cfg
  {
    hide Outdated, RefutingIncarnation;
  }

  lemma {:induction false} AliveLocality(m: Member, a: Message, bootstrap: bool, env: Env, n: Name)
    requires a.Alive? && n != a.node
    ensures SameSlot(m, AliveNode(m, a, bootstrap, env), n) && AliveNode(m, a, bootstrap, env).cfg == m.cfg
  {
    hide AliveKnown;
    var m1 := if a.node in m.table then m else m.(table := m.table[a.node := Record(a.addr, 0, StateDead, env.junk)]);
    KnownLocality(m1, a, bootstrap, env, n);
  }

  lemma {:induction false} HandleLocality(m: Member, msg: Message, env: Env, n: Name)
    requires SelfOk(m) && n != msg.node
    ensures SameSlot(m, Handle(m, msg, env), n) && Handle(m, msg, env).cfg == m.cfg
  {
    hide AliveNode, RefutingIncarnation, Expected, Accepts, Confirmed;
    if msg.Alive? {
      AliveLocality(m, msg, false, env, n);
    }
  }

  lemma {:induction false} AliveSlot(m: Member, a: Message, env: Env)
    requires a.Alive? && SelfOk(m) && SlotOk(m, a.node)
    ensures SlotOk(AliveNode(m, a, false, env), a.node)
  {
  }

  lemma {:induction false} SuspectSlot(m: Member, s: Message, env: Env)
    requires s.Suspect? && SelfOk(m) && SlotOk(m, s.node)
    ensures SlotOk(SuspectNode(m, s, env), s.node)
  {
  }

  lemma {:induction false} DeadSlot(m: Member, d: Message, env: Env)
    requires d.Dead? && SelfOk(m) && SlotOk(m, d.node)
    ensures SlotOk(DeadNode(m, d, env), d.node)
  {
  }

  lemma {:induction false} HandleSelf(m: Member, msg: Message, env: Env)
    requires SelfOk(m) && SlotOk(m, m.Self())
    ensures SelfOk(Handle(m, msg, env)) && Handle(m, msg, env).leaving == m.leaving
  {
    hide RefutingIncarnation, Expected, Reclaimable, TallyOk;
    if msg.node != m.Self() {
      HandleLocality(m, msg, env, m.Self());
    }
  }

  /** No message separates our record from our counter, not even one that makes the counter wrap. */
  lemma {:induction false} HandleCurrent(m: Member, msg: Message, env: Env)
    requires SelfOk(m) && SlotOk(m, m.Self()) && Current(m)
    ensures SelfOk(Handle(m, msg, env)) && Current(Handle(m, msg, env))
  {
    HandleSelf(m, msg, env);
    hide RefutingIncarnation, Expected, Reclaimable, TallyOk;
    if msg.node != m.Self() {
      HandleLocality(m, msg, env, m.Self());
    }
  }

  /** Every message keeps the invariant. */
  lemma {:induction false} HandleKeeps(m: Member, msg: Message, env: Env)
    requires Inv(m)
    ensures Inv(Handle(m, msg, env)) && Handle(m, msg, env).leaving == m.leaving && Handle(m, msg, env).cfg == m.cfg
  {
    var m' := Handle(m, msg, env);
    assert SlotOk(m, m.Self()) && SlotOk(m, msg.node);
    HandleSelf(m, msg, env);
    match msg {
      case Alive(_, _, _) => AliveSlot(m, msg, env);
      case Suspect(_, _, _) => SuspectSlot(m, msg, env);
      case Dead(_, _, _) => DeadSlot(m, msg, env);
    }
    forall n ensures SlotOk(m', n) {
      if n != msg.node {
        HandleLocality(m, msg, env, n);
        assert SlotOk(m, n);
      }
    }
  }
}
