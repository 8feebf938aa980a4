/** What each message does to a member, written out in the fields of the message and the record it meets. */
module ProtocolEffects {
  import opened Wire
  import opened Suspicions
  import opened Protocol
  import opened ProtocolInvariant
  import opened ProtocolLaws

  // ---------------------------------------------------------------- Alive

  /** The member has taken an Alive about somebody else: record, timer and queue are those of the message; the time of
      the last change stays if the record was alive before. */
  ghost predicate TookAlive(m: Member, m': Member, a: Message, changed: int)
    requires a.Alive?
  {
    && m'.table == m.table[a.node := Record(a.addr, a.inc, StateAlive, changed)]
    && m'.timers == m.timers - {a.node}
    && m'.queue == m.queue[a.node := a] && m'.submitted == m.submitted + 1
    && m'.cfg == m.cfg && m'.counter == m.counter && m'.leaving == m.leaving
  }

  /** A member nobody has heard of becomes known as alive, or with incarnation 0 as dead and without gossip. */
  lemma {:induction false} AliveIntroduces(m: Member, a: Message, env: Env)
    requires Inv(m) && a.Alive? && a.node !in m.table
    ensures var m' := Handle(m, a, env);
            if a.inc > 0 then TookAlive(m, m', a, env.now)
            else m' == m.(table := m.table[a.node := Record(a.addr, 0, StateDead, env.junk)])
  {
    assert SlotOk(m, a.node);
    assert m.timers - {a.node} == m.timers;
  }

  /** Under the known address, an Alive about somebody else is taken exactly if its incarnation is higher. */
  lemma {:induction false} AliveRenews(m: Member, a: Message, env: Env)
    requires Inv(m) && a.Alive? && a.node in m.table && a.node != m.Self() && a.addr == m.table[a.node].addr
    ensures var m', r := Handle(m, a, env), m.table[a.node];
            if a.inc > r.inc then TookAlive(m, m', a, if r.status.StateAlive? then r.changed else env.now)
            else m' == m
  {
  }

  /** Under another address, it is taken exactly if the owner of the record left, or has been dead for the configured
      time; the incarnation does not matter. */
  lemma {:induction false} AliveReclaims(m: Member, a: Message, env: Env)
    requires Inv(m) && a.Alive? && a.node in m.table && a.node != m.Self() && a.addr != m.table[a.node].addr
    ensures var m', r := Handle(m, a, env), m.table[a.node];
            if || r.status.StateLeft?
               || (r.status.StateDead? && m.cfg.reclaimTime > 0 && env.now - r.changed >= m.cfg.reclaimTime)
            then TookAlive(m, m', a, env.now)
            else m' == m
  {
  }

  // ---------------------------------------------------------------- refutation

  /** The member has answered an accusation: with its counter, or with one more than the accusation if that reaches the
      counter. */
  ghost predicate Answered(m: Member, m': Member, accused: U32, inc: U32)
    requires m.Self() in m.table
  {
    && inc == (if accused < m.counter then m.counter else if accused == UINT32_MAX then 0 else accused + 1)
    && m'.counter == inc
    && m'.table == m.table[m.Self() := m.table[m.Self()].(inc := inc)]
    && m'.queue == m.queue[m.Self() := Alive(inc, m.Self(), m.cfg.addr)] && m'.submitted == m.submitted + 1
    && m'.timers == m.timers && m'.cfg == m.cfg && m'.leaving == m.leaving
  }

  lemma {:induction false} RefuteAnswers(m: Member, accused: U32)
    requires SelfOk(m)
    ensures Answered(m, Refute(m, accused), accused, Refute(m, accused).counter)
  {
  }

  /** A message about ourselves is answered exactly if we are still here, it is not outdated, and, if it is an Alive, it
      claims more than we know under our own address; otherwise nothing changes. */
  lemma {:induction false} OwnMessageAnswered(m: Member, msg: Message, env: Env)
    requires Inv(m) && msg.node == m.Self()
    ensures var m', r := Handle(m, msg, env), m.table[m.Self()];
            if !m.leaving && (if msg.Alive? then msg.inc > r.inc && msg.addr == m.cfg.addr else msg.inc >= r.inc)
            then Answered(m, m', msg.inc, m'.counter)
            else m' == m
  {
    assert SlotOk(m, m.Self());
    assert m.timers - {m.Self()} == m.timers;
    RefuteAnswers(m, msg.inc);
    hide Refute, Answered, Inv, SlotOk;
  }

  // ---------------------------------------------------------------- Suspect

  /** How many confirmations a new timer waits for: two less than the multiplier, if there are that many members besides
      ourselves and the suspect. */
  lemma {:induction false} ExpectedConfirmations(mult: nat, n: nat)
    requires 2 <= mult < 258 && 2 <= n < UINT32_SIZE
    ensures Expected(mult, n) == if n >= mult then mult - 2 else 0
  {
  }

  lemma {:induction false} TwoKnown(m: Member, x: Name)
    requires m.Self() in m.table && x in m.table && x != m.Self()
    ensures |m.table| >= 2
  {
    var rest := m.table.Keys - {m.Self(), x};
    assert m.table.Keys == rest + {m.Self()} + {x};
    assert |m.table.Keys| == |rest| + 2;
  }

  /** The first suspicion of an alive member is stored, gossiped and timed; its sender is the only confirmer. */
  lemma {:induction false} SuspicionOpens(m: Member, s: Message, env: Env)
    requires Inv(m) && s.Suspect? && s.node in m.table && s.node != m.Self()
    requires m.table[s.node].status.StateAlive? && s.inc >= m.table[s.node].inc
    ensures var x, m' := s.node, Handle(m, s, env);
            && m'.table == m.table[x := Record(m.table[x].addr, s.inc, StateSuspect, env.now)]
            && x in m'.timers
            && m'.timers == m.timers[x := Timer(Tally({s.from}, 0, m'.timers[x].tally.k), env.now)]
            && (2 <= m.cfg.suspicionMult < 258 && |m.table| < UINT32_SIZE ==>
                  m'.timers[x].tally.k == if |m.table| >= m.cfg.suspicionMult then m.cfg.suspicionMult - 2 else 0)
            && m'.queue == m.queue[x := s] && m'.submitted == m.submitted + 1
            && m'.cfg == m.cfg && m'.counter == m.counter && m'.leaving == m.leaving
  {
    assert SlotOk(m, s.node);
    TwoKnown(m, s.node);
    if 2 <= m.cfg.suspicionMult < 258 && |m.table| < UINT32_SIZE {
      ExpectedConfirmations(m.cfg.suspicionMult, |m.table|);
    }
  }

  /** A further suspicion is counted and gossiped on, as it came, exactly if it is not outdated, its sender is new and
      no more than k were counted; the record stays. */
  lemma {:induction false} SuspicionConfirmed(m: Member, s: Message, env: Env)
    requires Inv(m) && s.Suspect? && s.node in m.table && m.table[s.node].status.StateSuspect?
    ensures var x, m' := s.node, Handle(m, s, env);
            && x in m.timers
            && var t, raised := m.timers[x].tally, m.timers[x].raised;
               if s.inc >= m.table[x].inc && t.n <= t.k && s.from !in t.confirmers
               then && m'.timers == m.timers[x := Timer(Tally(t.confirmers + {s.from}, t.n + 1, t.k), raised)]
                    && m'.queue == m.queue[x := s] && m'.submitted == m.submitted + 1
                    && m'.table == m.table && m'.cfg == m.cfg && m'.counter == m.counter && m'.leaving == m.leaving
               else m' == m
  {
    assert SlotOk(m, s.node);
  }

  /** Any other suspicion of somebody else is ignored. */
  lemma {:induction false} SuspicionIgnored(m: Member, s: Message, env: Env)
    requires Inv(m) && s.Suspect? && s.node != m.Self()
    requires s.node !in m.table || m.table[s.node].DeadOrLeft() || s.inc < m.table[s.node].inc
    ensures Handle(m, s, env) == m
  {
    assert SlotOk(m, s.node);
  }

  // ---------------------------------------------------------------- Dead

  /** A Dead that is not outdated, about a member held alive or suspect, is stored with the time it arrives, gossiped,
      and ends the suspicion; it means departure exactly if it comes from its subject. */
  lemma {:induction false} DeathStored(m: Member, d: Message, env: Env)
    requires Inv(m) && d.Dead? && d.node in m.table && d.node != m.Self()
    requires !m.table[d.node].DeadOrLeft() && d.inc >= m.table[d.node].inc
    ensures var x, m' := d.node, Handle(m, d, env);
            && x in m'.table && m'.table[x].status == (if d.from == x then StateLeft else StateDead)
            && m'.table == m.table[x := Record(m.table[x].addr, d.inc, m'.table[x].status, env.now)]
            && m'.timers == m.timers - {x}
            && m'.queue == m.queue[x := d] && m'.submitted == m.submitted + 1
            && m'.cfg == m.cfg && m'.counter == m.counter && m'.leaving == m.leaving
  {
  }

  /** Any other Dead about somebody else is ignored. */
  lemma {:induction false} DeathIgnored(m: Member, d: Message, env: Env)
    requires Inv(m) && d.Dead? && d.node != m.Self()
    requires d.node !in m.table || m.table[d.node].DeadOrLeft() || d.inc < m.table[d.node].inc
    ensures Handle(m, d, env) == m
  {
    assert SlotOk(m, d.node);
    assert d.node in m.table && m.table[d.node].DeadOrLeft() ==> m.timers - {d.node} == m.timers;
  }

  // ---------------------------------------------------------------- our own departure

  /** The first `Leave` marks our record as left at that time, under its last incarnation, and replaces whatever was
      queued about us by the announcement. */
  lemma {:induction false} DepartureAnnounced(m: Member, env: Env)
    requires Inv(m)
    ensures var m', me := Leave(m, env), m.table[m.Self()];
            if m.leaving then m' == m
            else
              && m'.leaving && m'.table == m.table[m.Self() := Record(m.cfg.addr, me.inc, StateLeft, env.now)]
              && m'.queue == m.queue[m.Self() := Dead(me.inc, m.Self(), m.Self())] && m'.submitted == m.submitted + 1
              && m'.timers == m.timers && m'.cfg == m.cfg && m'.counter == m.counter
  {
    assert SlotOk(m, m.Self());
    assert m.timers - {m.Self()} == m.timers;
  }

  /** The state that `setAlive` leaves. */
  lemma {:induction false} FirstAnnouncement(cfg: Config, env: Env)
    ensures Start(cfg, env) == Member(cfg, map[cfg.name := Record(cfg.addr, 1, StateAlive, env.now)], map[], 1, false,
                                      map[cfg.name := Alive(1, cfg.name, cfg.addr)], 1)
  {
    var m := Start(cfg, env);
    assert m.table == map[cfg.name := Record(cfg.addr, 1, StateAlive, env.now)];
    assert m.queue == map[cfg.name := Alive(1, cfg.name, cfg.addr)] && m.timers == map[];
  }

  // ---------------------------------------------------------------- suspicion callbacks

  /** A suspicion that nothing has changed ends in death: whatever else happens in the meantime, the callback of the
      suspicion passes its test, and its message stores the subject as dead at that time. */
  lemma {:induction false} CallbackFires(m: Member, s: Message, env: Env, events: seq<Event>, late: Env)
    requires Inv(m) && s.Suspect? && s.node in m.table && s.node != m.Self()
    requires m.table[s.node].status.StateAlive? && s.inc >= m.table[s.node].inc
    requires s.node in Run(Handle(m, s, env), events).table && s.node in Handle(m, s, env).table
    requires Run(Handle(m, s, env), events).table[s.node] == Handle(m, s, env).table[s.node]
    ensures var x, m' := s.node, Run(Handle(m, s, env), events);
            && TimedOut(m', x, env.now)
            && var dead := Handle(m', Dead(m'.table[x].inc, x, m.Self()), late);
               x in dead.table && dead.table[x] == Record(m.table[x].addr, s.inc, StateDead, late.now)
  {
    SuspicionOpens(m, s, env);
    HandleKeeps(m, s, env);
    RunKeeps(Handle(m, s, env), events);
    hide Inv, Handle, Run;
    var m' := Run(Handle(m, s, env), events);
    DeathStored(m', Dead(m'.table[s.node].inc, s.node, m.Self()), late);
  }

  // ---------------------------------------------------------------- push/pull

  lemma {:induction false} MergeOfOne(m: Member, e: PushState, env: Env)
    ensures Merge(m, [e], [env]) == Handle(m, Replay(m.Self(), e), env)
  {
    hide Handle;
    assert [e][..0] == [];
  }

  /** A Left entry is taken as the departure it reports. */
  lemma {:induction false} MergedDeparture(m: Member, e: PushState, env: Env)
    requires Inv(m) && e.status.StateLeft? && e.name in m.table && e.name != m.Self()
    requires !m.table[e.name].DeadOrLeft() && e.inc >= m.table[e.name].inc
    ensures var x, m' := e.name, Merge(m, [e], [env]);
            && m'.table == m.table[x := Record(m.table[x].addr, e.inc, StateLeft, env.now)]
            && m'.timers == m.timers - {x}
            && m'.queue == m.queue[x := Dead(e.inc, x, x)] && m'.submitted == m.submitted + 1
  {
    MergeOfOne(m, e, env);
    DeathStored(m, Dead(e.inc, e.name, e.name), env);
    hide Inv, Handle, Merge;
  }

  /** A Suspect or Dead entry about somebody we hold alive becomes a suspicion of our own. */
  lemma {:induction false} MergedSuspicion(m: Member, e: PushState, env: Env)
    requires Inv(m) && (e.status.StateSuspect? || e.status.StateDead?) && e.name in m.table && e.name != m.Self()
    requires m.table[e.name].status.StateAlive? && e.inc >= m.table[e.name].inc
    ensures var x, m' := e.name, Merge(m, [e], [env]);
            && m'.table == m.table[x := Record(m.table[x].addr, e.inc, StateSuspect, env.now)]
            && x in m'.timers && m'.timers[x].tally.confirmers == {m.Self()} && m'.timers[x].tally.n == 0
            && m'.queue == m.queue[x := Suspect(e.inc, x, m.Self())] && m'.submitted == m.submitted + 1
  {
    MergeOfOne(m, e, env);
    SuspicionOpens(m, Suspect(e.inc, e.name, m.Self()), env);
    hide Inv, Handle, Merge;
  }

  /** An Alive entry with a higher incarnation is taken as it is. */
  lemma {:induction false} MergedAlive(m: Member, e: PushState, env: Env)
    requires Inv(m) && e.status.StateAlive? && e.name in m.table && e.name != m.Self()
    requires e.addr == m.table[e.name].addr && e.inc > m.table[e.name].inc
    ensures var x, m' := e.name, Merge(m, [e], [env]);
            && m'.table.Keys == m.table.Keys && Entry(x, m'.table[x]) == e && x !in m'.timers
            && m'.queue == m.queue[x := Alive(e.inc, x, e.addr)] && m'.submitted == m.submitted + 1
  {
    MergeOfOne(m, e, env);
    AliveRenews(m, Alive(e.inc, e.name, e.addr), env);
    hide Inv, Handle, Merge;
  }

  /** A snapshot says of every known member what the table says, and of nobody else. */
  lemma {:induction false} SnapshotIsTable(m: Member, e: PushState)
    ensures e in Snapshot(m) <==>
            e.name in m.table && var r := m.table[e.name]; e == PushState(e.name, r.addr, r.inc, r.status)
  {
  }
}
