/** Laws of a single member over arbitrary runs: any messages, in any order, from anyone. */
module ProtocolLaws {
  import opened Wire
  import opened Suspicions
  import opened Protocol
  import opened ProtocolInvariant

  /** `Send` is any effect packet filling and pruning can have on the queue: some entries stay. */
  datatype Event = Receive(msg: Message, env: Env) | LeaveNow(env: Env) | UpdateNow(env: Env) | Send(keep: set<Name>)

  function Apply(m: Member, e: Event): Member {
    match e
    case Receive(msg, env) => Handle(m, msg, env)
    case LeaveNow(env) => Leave(m, env)
    case UpdateNow(env) => if m.Self() in m.table then Update(m, env) else m
    case Send(keep) => Retain(m, keep)
  }

  function Run(m: Member, events: seq<Event>): Member {
    if events == [] then m else Apply(Run(m, events[..|events| - 1]), events[|events| - 1])
  }

  // ---------------------------------------------------------------- the invariant over runs

  lemma {:induction false} LeaveKeeps(m: Member, env: Env)
    requires Inv(m)
    ensures Inv(Leave(m, env)) && Leave(m, env).leaving && Leave(m, env).cfg == m.cfg
    ensures Current(m) ==> Current(Leave(m, env))
  {
    if !m.leaving {
      var m' := Leave(m, env);
      assert SlotOk(m, m.Self());
      forall n ensures SlotOk(m', n) {
        assert SlotOk(m, n);
        assert n != m.Self() ==> SameSlot(m, m', n);
      }
    }
  }

  /** Announcing ourselves anew costs two incarnations, because the announcement is itself refuted. It costs one and
      announces nothing once we left, or if the counter is at its last value. */
  lemma {:induction false} UpdateIsRefuted(m: Member, env: Env)
    requires SelfOk(m) && SlotOk(m, m.Self()) && Current(m)
    ensures var inc, me := Wrap32(m.counter + 2), m.table[m.Self()];
            Update(m, env) ==
            if m.leaving || m.counter == UINT32_MAX then m.(counter := Wrap32(m.counter + 1))
            else Submitted(m.(counter := inc, table := m.table[m.Self() := me.(inc := inc)]),
                           Alive(inc, m.Self(), m.cfg.addr))
  {
    assert m.timers - {m.Self()} == m.timers;
  }

  lemma {:induction false} UpdateLocality(m: Member, env: Env, n: Name)
    requires SelfOk(m) && n != m.Self()
    ensures SameSlot(m, Update(m, env), n) && Update(m, env).cfg == m.cfg
  {
    var inc := Skip(m.counter, 1);
    AliveLocality(m.(counter := inc), Alive(inc, m.Self(), m.table[m.Self()].addr), false, env, n);
  }

  lemma {:induction false} UpdateSelf(m: Member, env: Env)
    requires SelfOk(m) && SlotOk(m, m.Self())
    ensures SelfOk(Update(m, env)) && SlotOk(Update(m, env), m.Self()) && Update(m, env).leaving == m.leaving
  {
  }

  lemma {:induction false} UpdateKeeps(m: Member, env: Env)
    requires Inv(m)
    ensures Inv(Update(m, env)) && Update(m, env).leaving == m.leaving && Update(m, env).cfg == m.cfg
  {
    assert SlotOk(m, m.Self());
    UpdateSelf(m, env);
    forall n ensures SlotOk(Update(m, env), n) {
      if n != m.Self() {
        UpdateLocality(m, env, n);
        assert SlotOk(m, n);
      }
    }
  }

  /** Our record stays with our counter, unless the counter is at its last value and we are still here. */
  lemma {:induction false} UpdateCurrent(m: Member, env: Env)
    requires Inv(m) && Current(m)
    ensures var m' := Update(m, env);
            && m.Self() in m'.table
            && (m.counter < UINT32_MAX ==> m'.cfg == m.cfg && Current(m'))
            && (!m.leaving ==> (m'.table[m.Self()].inc == m'.counter <==> m.counter < UINT32_MAX))
  {
    assert SlotOk(m, m.Self());
    UpdateIsRefuted(m, env);
  }

  lemma {:induction false} SendKeeps(m: Member, keep: set<Name>)
    requires Inv(m)
    ensures Inv(Retain(m, keep))
  {
    forall n ensures SlotOk(Retain(m, keep), n) {
      assert SlotOk(m, n);
    }
  }

  lemma {:induction false} StartKeeps(cfg: Config, env: Env)
    ensures Inv(Start(cfg, env)) && !Start(cfg, env).leaving && Start(cfg, env).cfg == cfg
    ensures Start(cfg, env).counter == 1 && Start(cfg, env).table.Keys == {cfg.name} && Current(Start(cfg, env))
  {
  }

  predicate Leaves(events: seq<Event>) {
    exists i :: 0 <= i < |events| && events[i].LeaveNow?
  }

  lemma {:induction false} ApplyKeeps(m: Member, e: Event)
    requires Inv(m)
    ensures Inv(Apply(m, e)) && Apply(m, e).cfg == m.cfg
    ensures Apply(m, e).leaving <==> m.leaving || e.LeaveNow?
  {
    match e {
      case Receive(msg, env) => HandleKeeps(m, msg, env);
      case LeaveNow(env) => LeaveKeeps(m, env);
      case UpdateNow(env) => UpdateKeeps(m, env);
      case Send(keep) => SendKeeps(m, keep);
    }
  }

  lemma {:induction false} ApplyCurrent(m: Member, e: Event)
    requires Inv(m) && Current(m) && (e.UpdateNow? ==> m.counter < UINT32_MAX)
    ensures Inv(Apply(m, e)) && Current(Apply(m, e))
  {
    assert SlotOk(m, m.Self());
    ApplyKeeps(m, e);
    match e {
      case Receive(msg, env) => HandleCurrent(m, msg, env);
      case LeaveNow(env) => LeaveKeeps(m, env);
      case UpdateNow(env) => UpdateCurrent(m, env);
      case Send(keep) =>
    }
  }

  lemma {:induction false} RunKeeps(m: Member, events: seq<Event>)
    requires Inv(m)
    ensures Inv(Run(m, events)) && Run(m, events).cfg == m.cfg
    ensures Run(m, events).leaving <==> m.leaving || Leaves(events)
  {
    if events != [] {
      var front, last := events[..|events| - 1], events[|events| - 1];
      RunKeeps(m, front);
      hide Inv;
      ApplyKeeps(Run(m, front), last);
      assert events == front + [last];
    }
  }

  /** Until we leave, we are alive in our own table, whatever arrives; once we left, we stay left and nothing queued
      announces us as alive. */
  lemma {:induction false} AliveThenSilent(cfg: Config, env: Env, events: seq<Event>)
    ensures var m := Run(Start(cfg, env), events);
            && cfg.name in m.table && m.table[cfg.name].addr == cfg.addr
            && m.table[cfg.name].status == (if Leaves(events) then StateLeft else StateAlive)
            && (Leaves(events) && cfg.name in m.queue ==> m.queue[cfg.name].Dead?)
  {
    StartKeeps(cfg, env);
    RunKeeps(Start(cfg, env), events);
    assert SlotOk(Run(Start(cfg, env), events), cfg.name);
  }

  /** As long as we have not left, our record has the incarnation of our counter. */
  predicate InStep(m: Member) {
    !m.leaving ==> m.Self() in m.table && m.table[m.Self()].inc == m.counter
  }

  /** ... throughout a run. */
  predicate AlwaysInStep(m: Member, events: seq<Event>) {
    InStep(Run(m, events)) && (events == [] || AlwaysInStep(m, events[..|events| - 1]))
  }

  /** Until we leave, `UpdateNode` never finds the counter at its last value. */
  predicate Roomy(m: Member, events: seq<Event>) {
    if events == [] then true
    else
      var before := Run(m, events[..|events| - 1]);
      && Roomy(m, events[..|events| - 1])
      && (events[|events| - 1].UpdateNow? && !before.leaving ==> before.counter < UINT32_MAX)
  }

  lemma {:induction false} StaysInStep(m: Member, e: Event)
    requires Inv(m) && InStep(m)
    ensures InStep(Apply(m, e)) <==> (e.UpdateNow? && !m.leaving ==> m.counter < UINT32_MAX)
  {
    assert SlotOk(m, m.Self());
    ApplyKeeps(m, e);
    if !m.leaving {
      match e {
        case Receive(msg, env) => HandleCurrent(m, msg, env);
        case LeaveNow(env) =>
        case UpdateNow(env) => UpdateCurrent(m, env);
        case Send(keep) =>
      }
    }
  }

  /** Over every run, our record stays with our counter until we leave exactly if `UpdateNode` never meets a counter
      at its last value; no message can separate the two. */
  lemma {:induction false} RecordFollowsCounter(m: Member, events: seq<Event>)
    requires Inv(m) && InStep(m)
    ensures AlwaysInStep(m, events) <==> Roomy(m, events)
  {
    if events != [] {
      var front, last := events[..|events| - 1], events[|events| - 1];
      RecordFollowsCounter(m, front);
      RunKeeps(m, front);
      hide Inv, InStep;
      if AlwaysInStep(m, front) {
        StaysInStep(Run(m, front), last);
      }
    }
  }

  /** Every queued broadcast, hence every packet, says what the table says at that moment; its incarnation is the
      stored one, unless it is a suspicion that has been confirmed since. */
  lemma {:induction false} GossipAgreesWithTable(cfg: Config, env: Env, events: seq<Event>, n: Name)
    requires n in Run(Start(cfg, env), events).queue
    ensures var m := Run(Start(cfg, env), events);
            && n in m.table && Agrees(m.queue[n], n, m.table[n])
            && (m.queue[n].inc == m.table[n].inc
                || (m.queue[n].Suspect? && m.queue[n].inc > m.table[n].inc && n in m.timers &&
                    m.timers[n].tally.n >= 1))
  {
    StartKeeps(cfg, env);
    RunKeeps(Start(cfg, env), events);
    assert SlotOk(Run(Start(cfg, env), events), n);
  }

  /** A timer exists exactly for the suspected names, carries the time of the suspicion, and never for ourselves. */
  lemma {:induction false} TimersMatchSuspicions(cfg: Config, env: Env, events: seq<Event>, n: Name)
    ensures var m := Run(Start(cfg, env), events);
            && (n in m.timers <==> n in m.table && m.table[n].status.StateSuspect?)
            && (n in m.timers ==> m.timers[n].raised == m.table[n].changed && n != cfg.name)
  {
    StartKeeps(cfg, env);
    RunKeeps(Start(cfg, env), events);
    assert SlotOk(Run(Start(cfg, env), events), n);
  }

  /** When a timer is set up, the `n - 2` of its threshold does not wrap, and the timer never expects more confirmers
      than there are members besides the accuser and the accused. */
  lemma {:induction false} TimerSetupInRange(m: Member, node: Name)
    requires SelfOk(m) && node in m.table && node != m.Self() && |m.table| < UINT32_SIZE
    ensures |m.table| >= 2
    ensures Expected(m.cfg.suspicionMult, |m.table|) <= |m.table| - 2
    ensures 2 <= m.cfg.suspicionMult < 258 ==>
              Expected(m.cfg.suspicionMult, |m.table|) in {0, m.cfg.suspicionMult - 2}
  {
    var rest := m.table.Keys - {m.Self(), node};
    assert m.table.Keys == rest + {m.Self()} + {node};
    assert |m.table.Keys| == |rest| + 2;
  }

  // ---------------------------------------------------------------- refutation

  /** The refuting incarnation beats the accusation exactly when the accusation leaves room above itself. */
  lemma {:induction false} RefutationBeatsAccusation(counter: U32, accused: U32)
    ensures accused < UINT32_MAX ==>
              RefutingIncarnation(counter, accused) == if accused >= counter then accused + 1 else counter
    ensures RefutingIncarnation(counter, accused) > accused <==> accused < UINT32_MAX
  {
  }

  // ---------------------------------------------------------------- suspicion callbacks

  /** The event concerns `x`: only a received message about it does. */
  predicate About(e: Event, x: Name) {
    e.Receive? && e.msg.node == x
  }

  lemma {:induction false} OtherEvents(m: Member, e: Event, x: Name)
    requires Inv(m) && x != m.Self() && !About(e, x)
    ensures var m' := Apply(m, e);
            && (x in m.table <==> x in m'.table) && (x in m.table ==> m.table[x] == m'.table[x])
            && (x in m.timers <==> x in m'.timers) && (x in m.timers ==> m.timers[x] == m'.timers[x])
  {
    match e {
      case Receive(msg, env) => HandleLocality(m, msg, env, x);
      case LeaveNow(env) =>
      case UpdateNow(env) => UpdateLocality(m, env, x);
      case Send(keep) =>
    }
  }

  /** A callback that no longer matches never matches again, as long as no later step carries its timestamp. */
  lemma {:induction false} StaleStepStaysStale(m: Member, e: Event, x: Name, raised: int)
    requires Inv(m) && !TimedOut(m, x, raised) && x != m.Self()
    requires e.Receive? ==> e.env.now != raised
    ensures !TimedOut(Apply(m, e), x, raised)
  {
    assert SlotOk(m, x);
    if !About(e, x) {
      OtherEvents(m, e, x);
    }
  }

  lemma {:induction false} StaleCallbackNeverFires(m: Member, events: seq<Event>, x: Name, raised: int)
    requires Inv(m) && !TimedOut(m, x, raised) && x != m.Self()
    requires forall i :: 0 <= i < |events| && events[i].Receive? ==> events[i].env.now != raised
    ensures !TimedOut(Run(m, events), x, raised)
  {
    if events != [] {
      var front, last := events[..|events| - 1], events[|events| - 1];
      assert forall i :: 0 <= i < |front| ==> front[i] == events[i];
      StaleCallbackNeverFires(m, front, x, raised);
      RunKeeps(m, front);
      StaleStepStaysStale(Run(m, front), last, x, raised);
    }
  }

  /** An accepted Alive stores its incarnation. */
  lemma {:induction false} NewsRaises(m: Member, a: Message, env: Env)
    requires a.Alive? && a.node != m.Self() && a.node in m.table
    requires a.addr == m.table[a.node].addr && a.inc > m.table[a.node].inc
    ensures var m' := Handle(m, a, env);
            && m'.cfg == m.cfg && a.node in m'.table
            && m'.table[a.node].inc == a.inc && m'.table[a.node].addr == a.addr
  {
  }

  lemma {:induction false} OldDeadIgnored(m: Member, d: Message, env: Env)
    requires d.Dead? && d.node in m.table && d.inc < m.table[d.node].inc
    ensures Handle(m, d, env) == m
  {
  }

  /** Incarnation first, then Alive < Suspect < Dead or Left; unknown names rank lowest. */
  function Rank(m: Member, x: Name): nat {
    if x !in m.table then 0
    else
      var r := m.table[x];
      3 * r.inc + match r.status
                  case StateAlive => 0
                  case StateSuspect => 1
                  case StateDead => 2
                  case StateLeft => 2
  }

  /** Rank, refined by the confirmations of a running suspicion. */
  function Potential(m: Member, x: Name): nat {
    258 * Rank(m, x) + if x in m.timers then m.timers[x].tally.n else 0
  }

  /** No address is taken over by this message. */
  predicate NoReclaim(m: Member, msg: Message) {
    msg.Alive? && msg.node in m.table ==> msg.addr == m.table[msg.node].addr
  }

  /** SWIM precedence: a message never lowers the rank of a remote member; whatever it submits for gossip is paid
      for by a higher rank or by one more confirmer. */
  lemma {:induction false} GossipPaysPotential(m: Member, msg: Message, env: Env)
    requires Inv(m) && NoReclaim(m, msg) && msg.node != m.Self()
    ensures var m' := Handle(m, msg, env);
            && Rank(m, msg.node) <= Rank(m', msg.node)
            && (msg.node in m.table ==> msg.node in m'.table && m.table[msg.node].inc <= m'.table[msg.node].inc)
            && m.submitted <= m'.submitted
            && Potential(m, msg.node) + (m'.submitted - m.submitted) <= Potential(m', msg.node)
  {
    assert SlotOk(m, msg.node);
  }

  /** Everything the run says about `x` uses one address and incarnations up to `bound`. */
  predicate Says(events: seq<Event>, x: Name, addr: Address, bound: U32) {
    forall i :: 0 <= i < |events| && About(events[i], x) ==>
      events[i].msg.inc <= bound && (events[i].msg.Alive? ==> events[i].msg.addr == addr)
  }

  /** `x` is known under `addr` with an incarnation up to `bound`, if at all. */
  predicate Known(m: Member, x: Name, addr: Address, bound: U32) {
    x in m.table ==> m.table[x].addr == addr && m.table[x].inc <= bound
  }

  lemma {:induction false} KnownKept(m: Member, e: Event, x: Name, addr: Address, bound: U32)
    requires Inv(m) && x != m.Self() && Known(m, x, addr, bound)
    requires About(e, x) ==> e.msg.inc <= bound && (e.msg.Alive? ==> e.msg.addr == addr)
    ensures Known(Apply(m, e), x, addr, bound)
  {
    if !About(e, x) {
      OtherEvents(m, e, x);
    }
  }

  lemma {:induction false} IncarnationNeverFalls(m: Member, events: seq<Event>, x: Name, addr: Address, bound: U32)
    requires Inv(m) && x != m.Self() && Says(events, x, addr, bound) && Known(m, x, addr, bound)
    ensures Known(Run(m, events), x, addr, bound)
    ensures x in m.table ==> x in Run(m, events).table && m.table[x].inc <= Run(m, events).table[x].inc
  {
    if events != [] {
      var front, last := events[..|events| - 1], events[|events| - 1];
      assert forall i :: 0 <= i < |front| ==> front[i] == events[i];
      IncarnationNeverFalls(m, front, x, addr, bound);
      RunKeeps(m, front);
      var before := Run(m, front);
      KnownKept(before, last, x, addr, bound);
      if About(last, x) {
        GossipPaysPotential(before, last.msg, last.env);
      } else {
        OtherEvents(before, last, x);
      }
    }
  }

  /** A callback that passed its test holds a Dead message for the incarnation it saw. If an Alive for that member is
      accepted at any time before the message is applied, applying it changes nothing, however much happens before and
      after the Alive. */
  lemma {:induction false} LateDeadIsIgnored(m: Member, pre: seq<Event>, a: Message, env: Env, post: seq<Event>,
                                             x: Name, raised: int, bound: U32, late: Env)
    requires Inv(m) && TimedOut(m, x, raised) && x != m.Self() && m.table[x].inc <= bound
    requires Says(pre, x, m.table[x].addr, bound)
    requires a.Alive? && a.node == x && a.addr == m.table[x].addr && a.inc <= bound
    requires x in Run(m, pre).table ==> a.inc > Run(m, pre).table[x].inc
    requires Says(post, x, a.addr, bound)
    ensures var d := Dead(m.table[x].inc, x, m.Self());
            var m' := Run(Handle(Run(m, pre), a, env), post);
            Handle(m', d, late) == m'
  {
    IncarnationNeverFalls(m, pre, x, a.addr, bound);
    RunKeeps(m, pre);
    var m0 := Run(m, pre);
    var m1 := Handle(m0, a, env);
    HandleKeeps(m0, a, env);
    NewsRaises(m0, a, env);
    hide Inv, Handle, Run;
    IncarnationNeverFalls(m1, post, x, a.addr, bound);
    OldDeadIgnored(Run(m1, post), Dead(m.table[x].inc, x, m.Self()), late);
  }

  // ---------------------------------------------------------------- push/pull

  /** Merging entries that are already in the table leaves every record alone. */
  lemma {:induction false} EntryHarmless(m: Member, n: Name, env: Env)
    requires Inv(m) && n in m.table
    ensures Handle(m, Replay(m.Self(), Entry(n, m.table[n])), env).table == m.table
  {
    assert SlotOk(m, n);
  }

  lemma {:induction false} MergeKeeps(m: Member, entries: seq<PushState>, envs: seq<Env>)
    requires Inv(m) && |entries| <= |envs|
    ensures Inv(Merge(m, entries, envs)) && Merge(m, entries, envs).cfg == m.cfg
    ensures Merge(m, entries, envs).leaving == m.leaving
  {
    if entries != [] {
      var last := |entries| - 1;
      var before := Merge(m, entries[..last], envs);
      MergeKeeps(m, entries[..last], envs);
      hide Inv;
      HandleKeeps(before, Replay(before.Self(), entries[last]), envs[last]);
    }
  }

  /** Merging our own snapshot changes no record. */
  lemma {:induction false} OwnSnapshotHarmless(m: Member, entries: seq<PushState>, envs: seq<Env>)
    requires Inv(m) && |entries| <= |envs|
    requires forall i :: 0 <= i < |entries| ==>
             entries[i].name in m.table && entries[i] == Entry(entries[i].name, m.table[entries[i].name])
    ensures Merge(m, entries, envs).table == m.table
  {
    if entries != [] {
      var last := |entries| - 1;
      var front := entries[..last];
      OwnSnapshotHarmless(m, front, envs);
      MergeKeeps(m, front, envs);
      EntryHarmless(Merge(m, front, envs), entries[last].name, envs[last]);
    }
  }

  predicate DistinctNames(entries: seq<PushState>) {
    forall i, j :: 0 <= i < j < |entries| ==> entries[i].name != entries[j].name
  }

  /** A name not mentioned stays as it was. */
  lemma {:induction false} MergeLocality(m: Member, entries: seq<PushState>, envs: seq<Env>, x: Name)
    requires Inv(m) && |entries| <= |envs| && forall i :: 0 <= i < |entries| ==> entries[i].name != x
    ensures SameSlot(m, Merge(m, entries, envs), x)
  {
    if entries != [] {
      var last := |entries| - 1;
      var front := entries[..last];
      MergeLocality(m, front, envs, x);
      MergeKeeps(m, front, envs);
      HandleLocality(Merge(m, front, envs), Replay(m.Self(), entries[last]), envs[last], x);
    }
  }

  /** Of the names we did not know, a snapshot introduces exactly those it lists as alive; the new record equals the
      entry exactly when its incarnation is positive. */
  lemma {:induction false} SnapshotIntroduces(m: Member, entries: seq<PushState>, envs: seq<Env>, k: nat)
    requires Inv(m) && |entries| <= |envs| && DistinctNames(entries) && k < |entries| && entries[k].name !in m.table
    ensures var m', e := Merge(m, entries, envs), entries[k];
            && (e.name in m'.table <==> e.status.StateAlive?)
            && (e.name in m'.table ==> (Entry(e.name, m'.table[e.name]) == e <==> e.inc > 0))
  {
    var last := |entries| - 1;
    var front := entries[..last];
    var before := Merge(m, front, envs);
    MergeKeeps(m, front, envs);
    if k == last {
      MergeLocality(m, front, envs, entries[last].name);
    } else {
      SnapshotIntroduces(m, front, envs, k);
      HandleLocality(before, Replay(before.Self(), entries[last]), envs[last], entries[k].name);
    }
  }

  /** A member somebody else calls dead is at most suspected by us: a record found Dead afterwards was Dead before. */
  lemma {:induction false} RemoteDeadOnlySuspected(m: Member, e: PushState, env: Env)
    requires Inv(m) && e.status.StateDead?
    ensures var m' := Handle(m, Replay(m.Self(), e), env);
            && m'.table.Keys == m.table.Keys
            && forall n :: n in m.table && m'.table[n].status.StateDead? ==> m.table[n] == m'.table[n]
  {
    assert SlotOk(m, e.name);
  }

  // ---------------------------------------------------------------- precedence

  lemma {:induction false} RankBounded(m: Member, x: Name, bound: U32)
    requires Inv(m) && (x in m.table ==> m.table[x].inc <= bound)
    ensures Potential(m, x) < 258 * (3 * bound + 3)
  {
    assert SlotOk(m, x);
  }

  /** How many broadcasts about `x` the run submits. */
  function SubmittedAbout(m: Member, events: seq<Event>, x: Name): nat {
    if events == [] then 0
    else
      var front, last := events[..|events| - 1], events[|events| - 1];
      var before := Run(m, front);
      var gain := if About(last, x) then Apply(before, last).submitted - before.submitted else 0;
      SubmittedAbout(m, front, x) + if gain >= 0 then gain else 0
  }

  lemma {:induction false} SubmissionsPaid(m: Member, events: seq<Event>, x: Name, addr: Address, bound: U32)
    requires Inv(m) && x != m.Self() && Says(events, x, addr, bound) && Known(m, x, addr, bound)
    ensures Known(Run(m, events), x, addr, bound)
    ensures SubmittedAbout(m, events, x) + Potential(m, x) <= Potential(Run(m, events), x)
  {
    if events != [] {
      var front, last := events[..|events| - 1], events[|events| - 1];
      assert forall i :: 0 <= i < |front| ==> front[i] == events[i];
      SubmissionsPaid(m, front, x, addr, bound);
      RunKeeps(m, front);
      var before := Run(m, front);
      KnownKept(before, last, x, addr, bound);
      if About(last, x) {
        GossipPaysPotential(before, last.msg, last.env);
      } else {
        OtherEvents(before, last, x);
      }
    }
  }

  /** The message takes over the address of `x`, whose owner left or died long enough ago. */
  predicate Reclaims(m: Member, msg: Message, now: int, x: Name)
    requires x in m.table
  {
    msg.Alive? && msg.node == x && msg.addr != m.table[x].addr && Reclaimable(m.cfg, m.table[x], now)
  }

  /** Exactly when a stored incarnation falls: an address is taken over with a lower one. */
  lemma {:induction false} IncarnationFallsIff(m: Member, msg: Message, env: Env, x: Name)
    requires Inv(m) && x in m.table && x != m.Self()
    ensures var m' := Handle(m, msg, env);
            && x in m'.table
            && (m'.table[x].inc < m.table[x].inc <==> Reclaims(m, msg, env.now, x) && msg.inc < m.table[x].inc)
  {
    assert SlotOk(m, x);
    if msg.node != x {
      HandleLocality(m, msg, env, x);
    }
  }

  /** A claim on another address is ignored or taken as it is. */
  lemma {:induction false} ClaimDecides(m: Member, a: Message, env: Env)
    requires Inv(m) && a.node != m.Self() && !NoReclaim(m, a)
    ensures var m' := Handle(m, a, env);
            if Reclaims(m, a, env.now, a.node)
            then a.node in m'.table && m'.table[a.node].inc == a.inc && m'.table[a.node].status.StateAlive?
                 && a.node !in m'.timers && m'.submitted == m.submitted + 1 && m.table[a.node].DeadOrLeft()
            else m' == m
  {
  }

  /** Exactly when a remote member falls in rank, and its broadcast is not paid for: an address is taken over without a
      higher incarnation. */
  lemma {:induction false} GossipPaysIff(m: Member, msg: Message, env: Env)
    requires Inv(m) && msg.node != m.Self()
    ensures var x, m' := msg.node, Handle(m, msg, env);
            var loses := x in m.table && Reclaims(m, msg, env.now, x) && msg.inc <= m.table[x].inc;
            && (Rank(m', x) < Rank(m, x) <==> loses)
            && (Potential(m, x) + (m'.submitted - m.submitted) <= Potential(m', x) <==> !loses)
  {
    assert SlotOk(m, msg.node);
    if NoReclaim(m, msg) {
      GossipPaysPotential(m, msg, env);
    } else {
      ClaimDecides(m, msg, env);
    }
  }

  /** Exactly when the record of a departed member changes: an Alive comes from another address, or with news. */
  lemma {:induction false} LeftChangesIff(m: Member, msg: Message, env: Env, x: Name)
    requires Inv(m) && x in m.table && x != m.Self() && m.table[x].status.StateLeft?
    ensures var m' := Handle(m, msg, env);
            && x in m'.table
            && (m'.table[x] != m.table[x] <==>
                msg.Alive? && msg.node == x && (msg.addr != m.table[x].addr || msg.inc > m.table[x].inc))
  {
    assert SlotOk(m, x);
    if msg.node != x {
      HandleLocality(m, msg, env, x);
    }
  }

  /** Quiescence: however long the run and however often messages are repeated, bounded incarnations allow only a
      bounded number of broadcasts about a member. */
  lemma {:induction false} GossipQuiesces(m: Member, events: seq<Event>, x: Name, addr: Address, bound: U32)
    requires Inv(m) && x != m.Self() && Says(events, x, addr, bound) && Known(m, x, addr, bound)
    ensures SubmittedAbout(m, events, x) < 258 * (3 * bound + 3)
  {
    SubmissionsPaid(m, events, x, addr, bound);
    RunKeeps(m, events);
    RankBounded(Run(m, events), x, bound);
  }

  /** A claim on a dead member's address that was too early the first time and is not the second time. */
  predicate LateClaim(m: Member, msg: Message, env: Env, env': Env) {
    && msg.Alive? && msg.node != m.Self() && msg.node in m.table
    && msg.addr != m.table[msg.node].addr
    && !Reclaimable(m.cfg, m.table[msg.node], env.now) && Reclaimable(m.cfg, m.table[msg.node], env'.now)
  }

  lemma {:induction false} DeadRecordClaimed(m: Member, a: Message, env: Env, r: Record)
    requires a.Alive? && a.node in m.table && a.node != m.Self() && m.table[a.node] == r
    requires r.status.StateDead? && a.addr != r.addr
    ensures Handle(m, a, env) != m <==> m.cfg.reclaimTime > 0 && env.now - r.changed >= m.cfg.reclaimTime
  {
    assert Handle(m, a, env) != m ==> Handle(m, a, env).table[a.node].addr == a.addr;
  }

  /** Late claims are real wherever addresses can be reclaimed. A member is heard of, declared dead by somebody else,
      and claimed under another address: the claim succeeds exactly if the configured time has passed since the death,
      so that it can fail the first time and succeed the second. */
  lemma {:induction false} LateClaimsHappen(cfg: Config, env: Env, x: Name, y: Name, addr: Address, heard: Env,
                                            died: Env, a: Message, env1: Env, env2: Env)
    requires x != cfg.name && x != y && a.Alive? && a.node == x && a.addr != addr
    ensures var m := Run(Start(cfg, env), [Receive(Alive(1, x, addr), heard), Receive(Dead(1, x, y), died)]);
            && (Handle(m, a, env1) != m <==> cfg.reclaimTime > 0 && env1.now - died.now >= cfg.reclaimTime)
            && (LateClaim(m, a, env1, env2) <==>
                cfg.reclaimTime > 0 && env1.now - died.now < cfg.reclaimTime <= env2.now - died.now)
  {
    StartKeeps(cfg, env);
    var e1, e2 := Receive(Alive(1, x, addr), heard), Receive(Dead(1, x, y), died);
    assert [e1, e2][..1] == [e1] && [e1][..0] == [];
    var m1 := Apply(Start(cfg, env), e1);
    assert Run(Start(cfg, env), [e1]) == m1;
    assert x in m1.table && m1.table[x] == Record(addr, 1, StateAlive, heard.now) && m1.cfg == cfg;
    var m := Apply(m1, e2);
    assert Run(Start(cfg, env), [e1, e2]) == m;
    hide Start, Run;
    DeadRecordClaimed(m, a, env1, Record(addr, 1, StateDead, died.now));
  }

  /** A message about ourselves at the last incarnation, to which we answer with incarnation 0. */
  predicate WrapsUs(m: Member, msg: Message)
    requires m.Self() in m.table
  {
    && msg.node == m.Self() && msg.inc == UINT32_MAX && !m.leaving
    && (msg.Alive? ==> msg.addr == m.cfg.addr && m.table[m.Self()].inc < UINT32_MAX)
  }

  /** Such a message is answered every time it arrives. */
  lemma {:induction false} WrapsToZero(m: Member, msg: Message, env: Env)
    requires SelfOk(m) && SlotOk(m, m.Self()) && WrapsUs(m, msg)
    ensures var m' := Handle(m, msg, env);
            && m'.counter == 0 && m'.submitted == m.submitted + 1
            && SelfOk(m') && SlotOk(m', m.Self()) && WrapsUs(m', msg)
  {
  }

  lemma {:induction false} OwnAliveAgain(m: Member, a: Message, env: Env, env': Env)
    requires a.Alive? && SelfOk(m) && SlotOk(m, a.node) && a.node == m.Self()
    ensures AliveNode(AliveNode(m, a, false, env), a, false, env') == AliveNode(m, a, false, env) <==> !WrapsUs(m, a)
  {
    RefutationBeatsAccusation(m.counter, a.inc);
    var m' := AliveNode(m, a, false, env);
    assert m'.timers - {a.node} == m'.timers;
    if WrapsUs(m, a) {
      WrapsToZero(m, a, env);
      WrapsToZero(m', a, env');
    }
  }

  lemma {:induction false} AliveAgain(m: Member, a: Message, env: Env, env': Env)
    requires a.Alive? && SelfOk(m) && SlotOk(m, a.node) && a.node != m.Self()
    ensures AliveNode(AliveNode(m, a, false, env), a, false, env') == AliveNode(m, a, false, env) <==>
            !LateClaim(m, a, env, env')
  {
    var m' := AliveNode(m, a, false, env);
    assert a.node in m'.table;
    assert a.addr == m'.table[a.node].addr ==> a.inc <= m'.table[a.node].inc;
    assert a.addr != m'.table[a.node].addr ==> m' == m;
    if LateClaim(m, a, env, env') {
      assert AliveNode(m', a, false, env').table[a.node].addr == a.addr;
    }
  }

  lemma {:induction false} SuspectAgain(m: Member, s: Message, env: Env, env': Env)
    requires s.Suspect? && SelfOk(m) && SlotOk(m, s.node)
    ensures SuspectNode(SuspectNode(m, s, env), s, env') == SuspectNode(m, s, env) <==> !WrapsUs(m, s)
  {
    RefutationBeatsAccusation(m.counter, s.inc);
    if WrapsUs(m, s) {
      WrapsToZero(m, s, env);
      WrapsToZero(SuspectNode(m, s, env), s, env');
    }
  }

  lemma {:induction false} DeadAgain(m: Member, d: Message, env: Env, env': Env)
    requires d.Dead? && SelfOk(m) && SlotOk(m, d.node)
    ensures DeadNode(DeadNode(m, d, env), d, env') == DeadNode(m, d, env) <==> !WrapsUs(m, d)
  {
    RefutationBeatsAccusation(m.counter, d.inc);
    if WrapsUs(m, d) {
      WrapsToZero(m, d, env);
      WrapsToZero(DeadNode(m, d, env), d, env');
    } else {
      var m' := DeadNode(m, d, env);
      assert d.node !in m'.timers ==> m'.timers - {d.node} == m'.timers;
    }
  }

  /** Receiving the same message again changes nothing, unless the wait for a dead member's address ended in between,
      or we answer the message with an incarnation that has wrapped. */
  lemma {:induction false} RedeliveryIsNoOp(m: Member, msg: Message, env: Env, env': Env)
    requires Inv(m)
    ensures Handle(Handle(m, msg, env), msg, env') == Handle(m, msg, env) <==>
            !LateClaim(m, msg, env, env') && !WrapsUs(m, msg)
  {
    assert SlotOk(m, msg.node);
    match msg {
      case Alive(_, _, _) =>
        if msg.node == m.Self() {
          OwnAliveAgain(m, msg, env, env');
        } else {
          AliveAgain(m, msg, env, env');
        }
      case Suspect(_, _, _) => SuspectAgain(m, msg, env, env');
      case Dead(_, _, _) => DeadAgain(m, msg, env, env');
    }
  }

  /** Order matters: a confirmation is gossiped with its own incarnation but does not raise the stored one, so of
      two suspicions of an alive member the first one decides the record. */
  lemma {:induction false} SuspicionsDoNotCommute(m: Member, s: Message, s': Message, env: Env)
    requires Inv(m) && s.Suspect? && s'.Suspect? && s.node == s'.node && s.node != m.Self() && s.node in m.table
    requires m.table[s.node].status.StateAlive? && m.table[s.node].inc <= s.inc < s'.inc
    ensures Handle(Handle(m, s, env), s', env).table[s.node].inc == s.inc
    ensures Handle(Handle(m, s', env), s, env).table[s.node].inc == s'.inc
  {
    assert SlotOk(m, s.node);
  }

  /** Both suspicions are news about an alive member, under different incarnations. */
  predicate Rivals(m: Member, s: Message, s': Message)
    requires s.node in m.table
  {
    var r := m.table[s.node];
    r.status.StateAlive? && r.inc <= s.inc && r.inc <= s'.inc && s.inc != s'.inc
  }

  /** What one suspicion does to the record of a remote member: it takes hold if the member is alive and the suspicion
      not outdated. */
  lemma {:induction false} SuspicionTakesHold(m: Member, s: Message, env: Env)
    requires Inv(m) && s.Suspect? && s.node != m.Self()
    ensures var x, m' := s.node, Handle(m, s, env);
            && Inv(m') && m'.cfg == m.cfg && m'.table.Keys == m.table.Keys
            && (x in m.table ==>
                  if m.table[x].status.StateAlive? && m.table[x].inc <= s.inc
                  then m'.table[x].status.StateSuspect? && m'.table[x].inc == s.inc
                  else m'.table[x] == m.table[x])
  {
    HandleKeeps(m, s, env);
    assert SlotOk(m, s.node);
    hide Inv, SlotOk, Accepts, Confirmed, Expected;
  }

  /** Exactly when order matters: two suspicions of a remote member leave the same state and incarnation in either
      order, unless they are rivals; the state is the same in any case. */
  lemma {:induction false} SuspicionsCommute(m: Member, s: Message, s': Message, env: Env, env': Env)
    requires Inv(m) && s.Suspect? && s'.Suspect? && s.node == s'.node && s.node != m.Self()
    ensures var x, m1, m2 := s.node, Handle(Handle(m, s, env), s', env'), Handle(Handle(m, s', env'), s, env);
            && m1.table.Keys == m.table.Keys == m2.table.Keys
            && (x in m.table ==> m1.table[x].status == m2.table[x].status)
            && (x in m.table ==> (m1.table[x].inc == m2.table[x].inc <==> !Rivals(m, s, s')))
  {
    hide Inv, Handle;
    SuspicionTakesHold(m, s, env);
    SuspicionTakesHold(Handle(m, s, env), s', env');
    SuspicionTakesHold(m, s', env');
    SuspicionTakesHold(Handle(m, s', env'), s, env);
  }
}
