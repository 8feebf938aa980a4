/** Safety of the whole cluster, over every run. */
module ClusterLaws {
  import opened Wire
  import opened Protocol
  import opened ProtocolInvariant
  import opened ProtocolLaws
  import opened ProtocolEffects
  import opened Cluster

  // ---------------------------------------------------------------- every step keeps the invariant

  /** A message that knows no more about us than we do moves our own record by at most one incarnation, and a leaving
      member's not at all. */
  lemma {:induction false} OwnRecordForward(m: Member, msg: Message, env: Env)
    requires InOrder(m) && m.counter < UINT32_MAX - 1
    requires msg.node == m.Self() ==> msg.inc <= m.table[m.Self()].inc
    ensures var m' := Handle(m, msg, env);
            && m'.table[m.Self()].inc in {m.table[m.Self()].inc, m.counter + 1}
            && m.table[m.Self()].inc <= m'.table[m.Self()].inc
            && (m.leaving ==> m'.table[m.Self()] == m.table[m.Self()])
            && (m'.table[m.Self()].inc != m.table[m.Self()].inc ==> m.Self() in m'.queue && m'.queue[m.Self()].Alive?)
            && m.counter <= m'.counter
  {
    assert SlotOk(m, m.Self());
    if msg.node != m.Self() {
      HandleLocality(m, msg, env, m.Self());
    }
  }

  /** What a handler writes about the subject comes from the message or was there before. */
  lemma {:induction false} SubjectFromMessage(m: Member, msg: Message, env: Env)
    requires InOrder(m) && msg.node != m.Self()
    ensures var x, m' := msg.node, Handle(m, msg, env);
            && (x in m'.queue ==> m'.queue[x] == msg || (x in m.queue && m'.queue[x] == m.queue[x]))
            && (x in m'.table ==>
                  || (x in m.table && m'.table[x] == m.table[x])
                  || (msg.Alive? && m'.table[x].addr == msg.addr && m'.table[x].inc in {0, msg.inc} &&
                      !m'.table[x].status.StateLeft?)
                  || (!msg.Alive? && x in m.table && m'.table[x].addr == m.table[x].addr && m'.table[x].inc == msg.inc
                      && (m'.table[x].status.StateLeft? ==> msg.Dead? && msg.from == x)))
  {
  }

  lemma {:induction false} SubjectIsSelf(m: Member, msg: Message, env: Env)
    requires InOrder(m) && msg.node == m.Self()
    ensures var x, m' := msg.node, Handle(m, msg, env);
            x in m'.queue ==>
              || (x in m.queue && m'.queue[x] == m.queue[x])
              || m'.queue[x] == Alive(m'.table[x].inc, x, m.cfg.addr)
  {
    assert SlotOk(m, m.Self());
  }

  /** The cluster moves forward when the one member that moved does. */
  lemma {:induction false} ForwardOne(s: State, s': State, at: Name, node: Node)
    requires at in s.nodes && s'.nodes == s.nodes[at := node]
    requires at in s.nodes[at].m.table && at in node.m.table && node.m.cfg == s.nodes[at].m.cfg
    requires s.nodes[at].m.table[at].inc <= node.m.table[at].inc && s.nodes[at].m.counter <= node.m.counter
    requires s.nodes[at].m.leaving ==> node.m.leaving && s.nodes[at].m.table[at].inc == node.m.table[at].inc
    ensures Forward(s, s')
  {
  }

  lemma {:induction false} ReplayOk(s: State, self: Name, e: PushState)
    requires EntryOk(s, e)
    ensures MsgOk(s, Replay(self, e))
  {
  }

  /** The message a step hands to its member is in order. */
  lemma {:induction false} InputOk(s: State, step: Step)
    requires ClusterInv(s) && Enabled(s, step) && Receives(step)
    ensures MsgOk(s, Input(s.nodes[step.at].m.Self(), step))
  {
    if step.MergeOne? {
      ReplayOk(s, s.nodes[step.at].m.Self(), step.entry);
    }
  }

  /** What `Leave` and `UpdateNode` do to our own record and queue entry. */
  lemma {:induction false} LeaveEffect(m: Member, env: Env)
    requires InOrder(m)
    ensures var m' := Leave(m, env);
            && m'.table[m.Self()].inc == m.table[m.Self()].inc && m'.counter == m.counter
            && (m.leaving ==> m' == m)
            && (!m.leaving ==>
                  m.Self() in m'.queue && m'.queue[m.Self()] == Dead(m.table[m.Self()].inc, m.Self(), m.Self()))
            && forall n :: n != m.Self() ==> SameSlot(m, m', n)
  {
  }

  lemma {:induction false} AnnounceEffect(m: Member, env: Env)
    requires InOrder(m) && m.counter < UINT32_MAX - 1
    ensures var m' := Update(m, env);
            && m'.table[m.Self()].inc == (if m.leaving then m.table[m.Self()].inc else m.counter + 2)
            && m.counter <= m'.counter
            && (m.Self() in m'.queue ==>
                  if m.leaving then m.Self() in m.queue && m'.queue[m.Self()] == m.queue[m.Self()]
                  else m'.queue[m.Self()] == Alive(m.counter + 2, m.Self(), m.cfg.addr))
            && forall n :: n != m.Self() ==> SameSlot(m, m', n)
  {
    assert SlotOk(m, m.Self());
    forall n | n != m.Self() ensures SameSlot(m, Update(m, env), n) {
      UpdateLocality(m, env, n);
    }
  }

  lemma {:induction false} MovedKeeps(m: Member, step: Step)
    requires InOrder(m) && m.counter < UINT32_MAX - 1
    ensures InOrder(Moved(m, step)) && Moved(m, step).cfg == m.cfg
    ensures Moved(m, step).leaving <==> m.leaving || step.LeaveCluster?
  {
    if Receives(step) {
      HandleKeeps(m, Input(m.Self(), step), step.env);
    } else if step.Gossip? {
      SendKeeps(m, step.keep);
    } else if step.LeaveCluster? {
      LeaveKeeps(m, step.env);
    } else if step.Announce? {
      UpdateKeeps(m, step.env);
    }
    hide InOrder, Handle, Leave, Update;
  }

  /** Our own incarnation never falls, and stands still once we are leaving. */
  lemma {:induction false} MovedForward(m: Member, step: Step)
    requires InOrder(m) && m.counter < UINT32_MAX - 1
    requires Receives(step) && Input(m.Self(), step).node == m.Self() ==>
             Input(m.Self(), step).inc <= m.table[m.Self()].inc
    ensures m.Self() in Moved(m, step).table
    ensures m.table[m.Self()].inc <= Moved(m, step).table[m.Self()].inc
    ensures m.leaving ==> m.table[m.Self()].inc == Moved(m, step).table[m.Self()].inc
    ensures m.counter <= Moved(m, step).counter
  {
    MovedKeeps(m, step);
    if Receives(step) {
      OwnRecordForward(m, Input(m.Self(), step), step.env);
    } else if step.LeaveCluster? {
      LeaveEffect(m, step.env);
    } else if step.Announce? {
      AnnounceEffect(m, step.env);
    }
    hide Handle, Leave, Update;
  }

  lemma {:induction false} NextForward(s: State, step: Step)
    requires ClusterInv(s) && Enabled(s, step)
    ensures Forward(s, Next(s, step))
  {
    var m := s.nodes[step.at].m;
    assert InOrder(m) && m.Self() == step.at;
    if Receives(step) {
      InputOk(s, step);
    }
    MovedKeeps(m, step);
    MovedForward(m, step);
    hide ClusterInv, InOrder, Moved, SentBy, PublishedBy, PendingAfter, Forward, Input;
    ForwardOne(s, Next(s, step), step.at, Next(s, step).nodes[step.at]);
  }

  // The new node is in order: its table, its queue, its pending calls, and what it sends.

  lemma {:induction false} HandledEntryOk(s: State, s': State, at: Name, msg: Message, env: Env, x: Name)
    requires ClusterInv(s) && at in s.nodes && MsgOk(s, msg) && Forward(s, s') && x != at
    requires x in Handle(s.nodes[at].m, msg, env).table
    ensures EntryOk(s', Entry(x, Handle(s.nodes[at].m, msg, env).table[x]))
  {
    var m := s.nodes[at].m;
    MsgOkForward(s, s', msg);
    if x != msg.node {
      HandleLocality(m, msg, env, x);
      EntryOkForward(s, s', Entry(x, m.table[x]));
    } else {
      SubjectFromMessage(m, msg, env);
      if x in m.table {
        EntryOkForward(s, s', Entry(x, m.table[x]));
      }
    }
    hide Handle, SlotOk, Forward;
  }

  /** Which records a step may change: our own, and the subject of the message it handles. */
  lemma {:induction false} MovedOthers(m: Member, step: Step, x: Name)
    requires InOrder(m) && m.counter < UINT32_MAX - 1 && x != m.Self() && !Receives(step)
    ensures var m' := Moved(m, step);
            && (x in m.table <==> x in m'.table) && (x in m.table ==> m.table[x] == m'.table[x])
            && (x in m'.queue ==> x in m.queue && m.queue[x] == m'.queue[x])
  {
    if step.LeaveCluster? {
      LeaveEffect(m, step.env);
    } else if step.Announce? {
      AnnounceEffect(m, step.env);
    }
    hide Handle, Leave, Update;
  }

  lemma {:induction false} MovedTableOk(s: State, step: Step, x: Name)
    requires ClusterInv(s) && Enabled(s, step) && Forward(s, Next(s, step))
    requires x in Next(s, step).nodes[step.at].m.table
    ensures EntryOk(Next(s, step), Entry(x, Next(s, step).nodes[step.at].m.table[x]))
  {
    var m, s' := s.nodes[step.at].m, Next(s, step);
    assert InOrder(m) && m.Self() == step.at && s'.nodes[step.at].m == Moved(m, step);
    if x == step.at {
      MovedKeeps(m, step);
    } else if Receives(step) {
      InputOk(s, step);
      HandledEntryOk(s, s', step.at, Input(m.Self(), step), step.env, x);
    } else {
      MovedOthers(m, step, x);
      assert EntryOk(s, Entry(x, m.table[x]));
      EntryOkForward(s, s', Entry(x, m.table[x]));
    }
    hide ClusterInv, Next, Handle, SlotOk, Forward;
  }

  lemma {:induction false} HandledQueueOk(s: State, s': State, at: Name, msg: Message, env: Env, x: Name)
    requires ClusterInv(s) && at in s.nodes && MsgOk(s, msg) && Forward(s, s')
    requires s'.nodes[at].m == Handle(s.nodes[at].m, msg, env)
    requires x in s'.nodes[at].m.queue
    ensures MsgOk(s', s'.nodes[at].m.queue[x])
  {
    var m := s.nodes[at].m;
    HandleKeeps(m, msg, env);
    MsgOkForward(s, s', msg);
    if x != msg.node {
      HandleLocality(m, msg, env, x);
      MsgOkForward(s, s', m.queue[x]);
    } else {
      if x != at {
        SubjectFromMessage(m, msg, env);
      } else {
        SubjectIsSelf(m, msg, env);
      }
      if x in m.queue {
        MsgOkForward(s, s', m.queue[x]);
      }
    }
    hide Handle, SlotOk, Forward;
  }

  lemma {:induction false} OwnQueueEntryOk(s: State, step: Step)
    requires ClusterInv(s) && Enabled(s, step) && Forward(s, Next(s, step)) && !Receives(step)
    requires step.at in Next(s, step).nodes[step.at].m.queue
    ensures MsgOk(Next(s, step), Next(s, step).nodes[step.at].m.queue[step.at])
  {
    var m, s' := s.nodes[step.at].m, Next(s, step);
    assert InOrder(m) && m.Self() == step.at && s'.nodes[step.at].m == Moved(m, step);
    MovedKeeps(m, step);
    if step.LeaveCluster? {
      LeaveEffect(m, step.env);
    } else if step.Announce? {
      AnnounceEffect(m, step.env);
    }
    if step.at in m.queue {
      MsgOkForward(s, s', m.queue[step.at]);
    }
    hide ClusterInv, Next, Handle, Leave, Update, SlotOk, Forward, EntryOk;
  }

  lemma {:induction false} MovedQueueOk(s: State, step: Step, x: Name)
    requires ClusterInv(s) && Enabled(s, step) && Forward(s, Next(s, step))
    requires x in Next(s, step).nodes[step.at].m.queue
    ensures MsgOk(Next(s, step), Next(s, step).nodes[step.at].m.queue[x])
  {
    var m, s' := s.nodes[step.at].m, Next(s, step);
    assert InOrder(m) && m.Self() == step.at && s'.nodes[step.at].m == Moved(m, step);
    if Receives(step) {
      InputOk(s, step);
      HandledQueueOk(s, s', step.at, Input(m.Self(), step), step.env, x);
    } else if x == step.at {
      OwnQueueEntryOk(s, step);
    } else {
      MovedOthers(m, step, x);
      MsgOkForward(s, s', m.queue[x]);
    }
    hide ClusterInv, Next, Handle, SlotOk, Forward, EntryOk, MsgOk;
  }

  // What the cluster invariant says about one member, one record, one queued message.

  lemma {:induction false} MemberOf(s: State, a: Name)
    requires ClusterInv(s) && a in s.nodes
    ensures InOrder(s.nodes[a].m) && SelfOk(s.nodes[a].m) && Current(s.nodes[a].m)
    ensures s.nodes[a].m.Self() == a && NodeOk(s, s.nodes[a])
  {
  }

  lemma {:induction false} RecordOf(s: State, a: Name, x: Name)
    requires ClusterInv(s) && a in s.nodes && x in s.nodes[a].m.table
    ensures EntryOk(s, Entry(x, s.nodes[a].m.table[x]))
  {
  }

  lemma {:induction false} QueuedOf(s: State, a: Name, x: Name)
    requires ClusterInv(s) && a in s.nodes && x in s.nodes[a].m.queue
    ensures MsgOk(s, s.nodes[a].m.queue[x]) && s.nodes[a].m.queue[x].node == x
  {
    assert SlotOk(s.nodes[a].m, x);
  }

  lemma {:induction false} PendingOf(s: State, a: Name, msg: Message)
    requires ClusterInv(s) && a in s.nodes && msg in s.nodes[a].pending
    ensures MsgOk(s, msg)
  {
  }

  lemma {:induction false} CarriedOf(s: State)
    requires ClusterInv(s)
    ensures forall msg :: msg in s.net ==> MsgOk(s, msg)
    ensures forall e :: e in s.snaps ==> EntryOk(s, e)
  {
  }

  /** What anybody accuses another member of is in order: it never claims a departure. */
  lemma {:induction false} AccusationOk(s: State, at: Name, x: Name)
    requires ClusterInv(s) && at in s.nodes && x in s.nodes[at].m.table && x != at
    ensures MsgOk(s, Dead(s.nodes[at].m.table[x].inc, x, at)) && MsgOk(s, Suspect(s.nodes[at].m.table[x].inc, x, at))
  {
    hide ClusterInv;
    RecordOf(s, at, x);
  }

  /** A timed-out suspicion is never about ourselves. */
  lemma {:induction false} SuspectIsOther(m: Member, x: Name, raised: int)
    requires SelfOk(m) && TimedOut(m, x, raised)
    ensures x in m.table && x != m.Self()
  {
  }

  lemma {:induction false} PendingOk(s: State, step: Step, msg: Message)
    requires Enabled(s, step) && msg in PendingAfter(s.nodes[step.at], step) && ClusterInv(s)
    ensures MsgOk(s, msg)
  {
    hide ClusterInv, MsgOk, InOrder, SelfOk, NodeOk;
    MemberOf(s, step.at);
    if msg in s.nodes[step.at].pending {
      PendingOf(s, step.at, msg);
    } else if step.TimerFires? {
      SuspectIsOther(s.nodes[step.at].m, step.x, step.raised);
      AccusationOk(s, step.at, step.x);
    } else {
      AccusationOk(s, step.at, step.x);
    }
  }

  lemma {:induction false} SentOk(s: State, step: Step, msg: Message)
    requires Enabled(s, step) && msg in SentBy(s.nodes[step.at].m, step) && ClusterInv(s)
    ensures MsgOk(s, msg)
  {
    hide ClusterInv, MsgOk, InOrder, SelfOk, NodeOk;
    MemberOf(s, step.at);
    if step.ProbeFails? {
      AccusationOk(s, step.at, step.x);
    } else {
      var n :| n in s.nodes[step.at].m.queue && msg == s.nodes[step.at].m.queue[n];
      QueuedOf(s, step.at, n);
    }
  }

  lemma {:induction false} PublishedOk(s: State, step: Step, e: PushState)
    requires Enabled(s, step) && e in PublishedBy(s.nodes[step.at].m, step) && ClusterInv(s)
    ensures EntryOk(s, e)
  {
    var m := s.nodes[step.at].m;
    hide ClusterInv, EntryOk;
    var n :| n in m.table && e == Entry(n, m.table[n]);
    RecordOf(s, step.at, n);
  }

  lemma {:induction false} NextPendingOk(s: State, step: Step, msg: Message)
    requires Enabled(s, step) && msg in Next(s, step).nodes[step.at].pending
    requires ClusterInv(s) && Forward(s, Next(s, step))
    ensures MsgOk(Next(s, step), msg)
  {
    hide ClusterInv, Forward, MsgOk, Moved, SentBy, PublishedBy, PendingAfter;
    PendingOk(s, step, msg);
    MsgOkForward(s, Next(s, step), msg);
  }

  lemma {:induction false} NextNodeOk(s: State, step: Step)
    requires Enabled(s, step) && ClusterInv(s) && Forward(s, Next(s, step))
    ensures NodeOk(Next(s, step), Next(s, step).nodes[step.at])
  {
    hide ClusterInv, Forward, EntryOk, MsgOk, Moved, SentBy, PublishedBy, PendingAfter;
    var s' := Next(s, step);
    var node := s'.nodes[step.at];
    hide Next, Enabled;
    forall x | x in node.m.table ensures EntryOk(s', Entry(x, node.m.table[x])) {
      MovedTableOk(s, step, x);
    }
    forall x | x in node.m.queue ensures MsgOk(s', node.m.queue[x]) {
      MovedQueueOk(s, step, x);
    }
    forall msg | msg in node.pending ensures MsgOk(s', msg) {
      NextPendingOk(s, step, msg);
    }
  }

  /** Every step keeps the cluster invariant and moves members forward only. */
  lemma {:induction false} NextKeeps(s: State, step: Step)
    requires ClusterInv(s) && Enabled(s, step)
    ensures ClusterInv(Next(s, step)) && Forward(s, Next(s, step))
  {
    var s' := Next(s, step);
    NextForward(s, step);
    NextNodeOk(s, step);
    assert InOrder(s.nodes[step.at].m) && s.nodes[step.at].m.Self() == step.at;
    MovedKeeps(s.nodes[step.at].m, step);
    hide ClusterInv, Forward, EntryOk, MsgOk, NodeOk, InOrder, Moved, SentBy, PublishedBy, PendingAfter;
    forall msg | msg in s'.net ensures msg in s.net || MsgOk(s', msg) {
      if msg !in s.net {
        SentOk(s, step, msg);
        MsgOkForward(s, s', msg);
      }
    }
    forall e | e in s'.snaps ensures e in s.snaps || EntryOk(s', e) {
      if e !in s.snaps {
        PublishedOk(s, step, e);
        EntryOkForward(s, s', e);
      }
    }
    OneNodeMoves(s, s', step.at, s'.nodes[step.at]);
  }

  lemma {:induction false} StartNodeOk(s: State, a: Name, cfg: Config, env: Env)
    requires a in s.nodes && s.nodes[a] == Node(Start(cfg, env), {}) && cfg.name == a
    ensures s.nodes[a].m.Self() == a && InOrder(s.nodes[a].m) && NodeOk(s, s.nodes[a])
  {
    StartKeeps(cfg, env);
  }

  lemma {:induction false} InitKeeps(s: State)
    requires Init(s)
    ensures ClusterInv(s)
  {
    hide Start, InOrder, NodeOk;
    forall a | a in s.nodes ensures s.nodes[a].m.Self() == a && InOrder(s.nodes[a].m) && NodeOk(s, s.nodes[a]) {
      var env, cfg: Config :| s.nodes[a] == Node(Start(cfg, env), {}) && cfg.name == a;
      StartNodeOk(s, a, cfg, env);
    }
  }

  lemma {:induction false} ForwardTransitive(s: State, s1: State, s2: State)
    requires Forward(s, s1) && Forward(s1, s2)
    ensures Forward(s, s2)
  {
  }

  /** Runs of the cluster keep the invariant and only move forward. */
  lemma {:induction false} RunKeepsCluster(s: State, steps: seq<Step>)
    requires ClusterInv(s) && Runs(s, steps)
    ensures ClusterInv(After(s, steps)) && Forward(s, After(s, steps))
    decreases |steps|
  {
    if steps != [] {
      var s1 := Next(s, steps[0]);
      NextKeeps(s, steps[0]);
      RunKeepsCluster(s1, steps[1..]);
      ForwardTransitive(s, s1, After(s1, steps[1..]));
    }
  }

  // ---------------------------------------------------------------- theorems over every run

  /** Provenance: nothing anywhere in the cluster - tables, queues, pending calls, network, snapshots - carries an
      incarnation of `x` above the one `x` holds for itself, which is its counter until it leaves. */
  lemma {:induction false} IncarnationProvenance(s0: State, steps: seq<Step>, x: Name)
    requires Init(s0) && Runs(s0, steps)
    ensures var s := After(s0, steps);
            && (forall a :: a in s.nodes && x in s.nodes[a].m.table ==>
                  x in s.nodes && x in s.nodes[x].m.table && s.nodes[a].m.table[x].inc <= Own(s, x))
            && (forall a, n :: a in s.nodes && n in s.nodes[a].m.queue ==> MsgOk(s, s.nodes[a].m.queue[n]))
            && (forall a, msg :: a in s.nodes && msg in s.nodes[a].pending ==> MsgOk(s, msg))
            && (forall msg :: msg in s.net ==> MsgOk(s, msg))
            && (forall e :: e in s.snaps ==> EntryOk(s, e))
            && (x in s.nodes ==> x in s.nodes[x].m.table)
            && (x in s.nodes && !s.nodes[x].m.leaving ==> Own(s, x) == s.nodes[x].m.counter)
  {
    InitKeeps(s0);
    RunKeepsCluster(s0, steps);
    var s := After(s0, steps);
    hide MsgOk, SlotOk, Init, Runs, After;
    forall a | a in s.nodes && x in s.nodes[a].m.table
      ensures x in s.nodes && x in s.nodes[x].m.table && s.nodes[a].m.table[x].inc <= Own(s, x)
    {
      assert EntryOk(s, Entry(x, s.nodes[a].m.table[x]));
    }
  }

  // ---------------------------------------------------------------- departures

  /** A record of a departed member survives every message that knows no more than that member's last incarnation. */
  lemma {:induction false} LeftRecordKept(m: Member, msg: Message, env: Env, x: Name)
    requires InOrder(m) && x in m.table && m.table[x].status.StateLeft?
    requires msg.node == x && msg.Alive? ==> msg.inc <= m.table[x].inc && msg.addr == m.table[x].addr
    ensures x in Handle(m, msg, env).table && Handle(m, msg, env).table[x] == m.table[x]
  {
    assert SlotOk(m, x);
    if x != msg.node {
      HandleLocality(m, msg, env, x);
    }
  }

  lemma {:induction false} LeftHandled(s: State, o: Name, x: Name, msg: Message, env: Env)
    requires ClusterInv(s) && o in s.nodes && MsgOk(s, msg)
    requires x in s.nodes[o].m.table && s.nodes[o].m.table[x].status.StateLeft?
    ensures var m, m' := s.nodes[o].m, Handle(s.nodes[o].m, msg, env);
            x in m'.table && m'.table[x] == m.table[x]
  {
    var m := s.nodes[o].m;
    assert EntryOk(s, Entry(x, m.table[x]));
    assert InOrder(m);
    hide ClusterInv, InOrder, Handle;
    LeftRecordKept(m, msg, env, x);
  }

  lemma {:induction false} LeftMoved(m: Member, step: Step, x: Name)
    requires InOrder(m) && m.counter < UINT32_MAX - 1 && x in m.table && m.table[x].status.StateLeft? && !Receives(step)
    ensures x in Moved(m, step).table && Moved(m, step).table[x] == m.table[x]
  {
    if x != m.Self() {
      MovedOthers(m, step, x);
    }
  }

  lemma {:induction false} MovedReceives(m: Member, step: Step)
    requires m.Self() in m.table && Receives(step)
    ensures Moved(m, step) == Handle(m, Input(m.Self(), step), step.env)
  {
  }

  lemma {:induction false} NextAt(s: State, step: Step, x: Name)
    requires Enabled(s, step) && x in s.nodes
    ensures x in Next(s, step).nodes
    ensures Next(s, step).nodes[x].m == if x == step.at then Moved(s.nodes[x].m, step) else s.nodes[x].m
  {
    hide Moved, PendingAfter, SentBy, PublishedBy;
  }

  lemma {:induction false} LeftStepStable(s: State, step: Step, o: Name, x: Name)
    requires ClusterInv(s) && Enabled(s, step) && o in s.nodes
    requires x in s.nodes[o].m.table && s.nodes[o].m.table[x].status.StateLeft?
    ensures var s' := Next(s, step);
            o in s'.nodes && x in s'.nodes[o].m.table && s'.nodes[o].m.table[x] == s.nodes[o].m.table[x]
  {
    var m := s.nodes[o].m;
    hide ClusterInv, InOrder, NodeOk, Handle, Moved, MsgOk, EntryOk, Input, Next;
    MemberOf(s, o);
    NextAt(s, step, o);
    if step.at == o {
      if Receives(step) {
        InputOk(s, step);
        LeftHandled(s, o, x, Input(m.Self(), step), step.env);
        MovedReceives(m, step);
      } else {
        LeftMoved(m, step, x);
      }
    }
  }

  lemma {:induction false} LeftStable(s: State, steps: seq<Step>, o: Name, x: Name)
    requires ClusterInv(s) && Runs(s, steps) && o in s.nodes
    requires x in s.nodes[o].m.table && s.nodes[o].m.table[x].status.StateLeft?
    ensures var s' := After(s, steps);
            o in s'.nodes && x in s'.nodes[o].m.table && s'.nodes[o].m.table[x] == s.nodes[o].m.table[x]
    decreases |steps|
  {
    if steps != [] {
      NextKeeps(s, steps[0]);
      LeftStepStable(s, steps[0], o, x);
      hide ClusterInv, Enabled, Next;
      LeftStable(Next(s, steps[0]), steps[1..], o, x);
    }
  }

  /** No resurrection: once anybody records `x` as left, the record never changes again, whatever is lost, repeated
      or reordered. */
  lemma {:induction false} NoResurrection(s0: State, steps: seq<Step>, more: seq<Step>, o: Name, x: Name)
    requires Init(s0) && Runs(s0, steps) && Runs(After(s0, steps), more) && o in After(s0, steps).nodes
    requires var m := After(s0, steps).nodes[o].m; x in m.table && m.table[x].status.StateLeft?
    ensures var s, s' := After(s0, steps), After(After(s0, steps), more);
            o in s'.nodes && x in s'.nodes[o].m.table && s'.nodes[o].m.table[x] == s.nodes[o].m.table[x]
  {
    InitKeeps(s0);
    RunKeepsCluster(s0, steps);
    hide Init, ClusterInv;
    LeftStable(After(s0, steps), more, o, x);
  }

  predicate LeftIn(steps: seq<Step>, x: Name) {
    exists i :: 0 <= i < |steps| && steps[i].LeaveCluster? && steps[i].at == x
  }

  lemma {:induction false} LeftInFirst(steps: seq<Step>, x: Name)
    requires steps != []
    ensures LeftIn(steps, x) <==> (steps[0].LeaveCluster? && steps[0].at == x) || LeftIn(steps[1..], x)
  {
    assert steps == [steps[0]] + steps[1..];
  }

  /** Only our own `Leave` sets the leave flag. */
  lemma {:induction false} OnlyLeaveLeaves(s: State, step: Step, x: Name)
    requires ClusterInv(s) && Enabled(s, step) && x in s.nodes
    ensures x in Next(s, step).nodes
    ensures Next(s, step).nodes[x].m.leaving <==> s.nodes[x].m.leaving || (step.LeaveCluster? && step.at == x)
  {
    hide ClusterInv, InOrder, Moved, NodeOk, Next, SelfOk;
    MemberOf(s, step.at);
    NextAt(s, step, x);
    MovedKeeps(s.nodes[step.at].m, step);
  }

  lemma {:induction false} LeavingMeansLeft(s: State, steps: seq<Step>, x: Name)
    requires ClusterInv(s) && Runs(s, steps) && x in s.nodes
    ensures x in After(s, steps).nodes
    ensures After(s, steps).nodes[x].m.leaving <==> s.nodes[x].m.leaving || LeftIn(steps, x)
    decreases |steps|
  {
    if steps != [] {
      NextKeeps(s, steps[0]);
      OnlyLeaveLeaves(s, steps[0], x);
      LeftInFirst(steps, x);
      hide ClusterInv, Enabled, Next, LeftIn, Forward;
      LeavingMeansLeft(Next(s, steps[0]), steps[1..], x);
    }
  }

  /** Somebody records `x` as left, or a Dead message from `x` about itself is queued, pending or sent. */
  ghost predicate SaidToHaveLeft(s: State, x: Name) {
    || (exists a :: a in s.nodes && x in s.nodes[a].m.table && s.nodes[a].m.table[x].status.StateLeft?)
    || (exists e :: e in s.snaps && e.name == x && e.status.StateLeft?)
    || (exists inc :: Dead(inc, x, x) in s.net)
    || (exists a, inc :: a in s.nodes && Dead(inc, x, x) in s.nodes[a].pending)
    || (exists a, n :: a in s.nodes && n in s.nodes[a].m.queue && s.nodes[a].m.queue[n].Dead? &&
                       s.nodes[a].m.queue[n].node == s.nodes[a].m.queue[n].from == x)
  }

  lemma {:induction false} SaidToHaveLeftIsLeaving(s: State, x: Name)
    requires ClusterInv(s) && SaidToHaveLeft(s, x)
    ensures x in s.nodes && s.nodes[x].m.leaving
  {
    hide Local;
    if a :| a in s.nodes && x in s.nodes[a].m.table && s.nodes[a].m.table[x].status.StateLeft? {
      assert EntryOk(s, Entry(x, s.nodes[a].m.table[x]));
    } else if e :| e in s.snaps && e.name == x && e.status.StateLeft? {
      assert EntryOk(s, e);
    } else if inc :| Dead(inc, x, x) in s.net {
      assert MsgOk(s, Dead(inc, x, x));
    } else if a, inc :| a in s.nodes && Dead(inc, x, x) in s.nodes[a].pending {
      assert MsgOk(s, Dead(inc, x, x));
    } else {
      var a, n :| a in s.nodes && n in s.nodes[a].m.queue && s.nodes[a].m.queue[n].Dead? &&
                  s.nodes[a].m.queue[n].node == s.nodes[a].m.queue[n].from == x;
      assert MsgOk(s, s.nodes[a].m.queue[n]);
    }
  }

  lemma {:induction false} StartsPresent(s0: State, x: Name)
    requires Init(s0) && x in s0.nodes
    ensures !s0.nodes[x].m.leaving
  {
    var env, cfg: Config :| s0.nodes[x] == Node(Start(cfg, env), {}) && cfg.name == x;
    StartKeeps(cfg, env);
  }

  /** No false departure: in no reachable state does anything say that `x` left unless `x` itself called `Leave`. */
  lemma {:induction false} NoFalseDeparture(s0: State, steps: seq<Step>, x: Name)
    requires Init(s0) && Runs(s0, steps)
    ensures SaidToHaveLeft(After(s0, steps), x) ==> LeftIn(steps, x)
  {
    InitKeeps(s0);
    RunKeepsCluster(s0, steps);
    var s := After(s0, steps);
    if SaidToHaveLeft(s, x) {
      SaidToHaveLeftIsLeaving(s, x);
      assert x in s0.nodes;
      StartsPresent(s0, x);
      hide Init, SaidToHaveLeft, ClusterInv, Forward;
      LeavingMeansLeft(s0, steps, x);
    }
  }

  // ---------------------------------------------------------------- pending calls

  /** No thread of a member still has a call to make about that member. */
  ghost predicate NoOwnPending(s: State) {
    forall a, msg :: a in s.nodes && msg in s.nodes[a].pending ==> msg.node != a
  }

  lemma {:induction false} NextPendingIsForeign(s: State, step: Step)
    requires ClusterInv(s) && Enabled(s, step) && NoOwnPending(s)
    ensures NoOwnPending(Next(s, step))
  {
    hide ClusterInv, InOrder, NodeOk, Current, Moved, SentBy, PublishedBy;
    MemberOf(s, step.at);
    if step.TimerFires? {
      SuspectIsOther(s.nodes[step.at].m, step.x, step.raised);
    }
  }

  /** In every reachable state, timers and probes have accused others only: the calls that a member's own threads still
      have to make are never about the member itself. */
  lemma {:induction false} PendingIsForeign(s: State, steps: seq<Step>)
    requires ClusterInv(s) && NoOwnPending(s) && Runs(s, steps)
    ensures NoOwnPending(After(s, steps))
    decreases |steps|
  {
    if steps != [] {
      hide ClusterInv, Enabled, NoOwnPending, Forward;
      NextPendingIsForeign(s, steps[0]);
      NextKeeps(s, steps[0]);
      PendingIsForeign(Next(s, steps[0]), steps[1..]);
    }
  }

  lemma {:induction false} OnlyOthersAccused(s0: State, steps: seq<Step>)
    requires Init(s0) && Runs(s0, steps)
    ensures NoOwnPending(After(s0, steps))
  {
    InitKeeps(s0);
    hide ClusterInv, Start, Runs, After;
    PendingIsForeign(s0, steps);
  }

  // ---------------------------------------------------------------- refutation

  ghost predicate NodesBelow(s: State, x: Name, inc: int) {
    && (forall a :: a in s.nodes && a != x && x in s.nodes[a].m.table ==> s.nodes[a].m.table[x].inc < inc)
    && (forall a :: a in s.nodes && a != x && x in s.nodes[a].m.queue ==> s.nodes[a].m.queue[x].inc < inc)
  }

  ghost predicate CarriedBelow(s: State, x: Name, inc: int) {
    && (forall a, msg :: a in s.nodes && msg in s.nodes[a].pending && msg.node == x ==> msg.inc < inc)
    && (forall msg :: msg in s.net && msg.node == x ==> msg.inc < inc)
    && (forall e :: e in s.snaps && e.name == x ==> e.inc < inc)
  }

  /** Everything the rest of the cluster knows about `x`, and everything on its way, is below `inc`. */
  ghost predicate AllBelow(s: State, x: Name, inc: int) {
    NodesBelow(s, x, inc) && CarriedBelow(s, x, inc)
  }

  lemma {:induction false} NodesBelowOwn(s: State, x: Name)
    requires ClusterInv(s) && x in s.nodes && x in s.nodes[x].m.table
    ensures NodesBelow(s, x, Own(s, x) + 1)
  {
    hide ClusterInv;
    forall a | a in s.nodes && x in s.nodes[a].m.table ensures s.nodes[a].m.table[x].inc <= Own(s, x) {
      RecordOf(s, a, x);
    }
    forall a | a in s.nodes && x in s.nodes[a].m.queue ensures s.nodes[a].m.queue[x].inc <= Own(s, x) {
      QueuedOf(s, a, x);
    }
  }

  lemma {:induction false} CarriedBelowOwn(s: State, x: Name)
    requires ClusterInv(s) && x in s.nodes && x in s.nodes[x].m.table
    ensures CarriedBelow(s, x, Own(s, x) + 1)
  {
    CarriedOf(s);
    hide ClusterInv;
    forall a, msg | a in s.nodes && msg in s.nodes[a].pending && msg.node == x ensures msg.inc <= Own(s, x) {
      PendingOf(s, a, msg);
    }
  }

  /** An accusation at our own incarnation is refuted with the next one. */
  lemma {:induction false} AccusationRefuted(m: Member, msg: Message, env: Env)
    requires InOrder(m) && !m.leaving && m.counter < UINT32_MAX
    requires !msg.Alive? && msg.node == m.Self() && msg.inc == m.counter
    ensures var m' := Handle(m, msg, env);
            && m'.counter == m.counter + 1 && m'.cfg == m.cfg
            && m.Self() in m'.table && m'.table[m.Self()] == m.table[m.Self()].(inc := m.counter + 1)
            && m.Self() in m'.queue && m'.queue[m.Self()] == Alive(m.counter + 1, m.Self(), m.cfg.addr)
  {
    assert SlotOk(m, m.Self());
  }

  /** A step that hands a message to member `at` changes nobody else and sends nothing. */
  ghost predicate OnlyMoved(s: State, s': State, at: Name) {
    && s'.nodes.Keys == s.nodes.Keys && s'.net == s.net && s'.snaps == s.snaps
    && (forall o :: o in s.nodes && o != at ==> s'.nodes[o] == s.nodes[o])
    && (at in s.nodes ==> s'.nodes[at].pending <= s.nodes[at].pending)
  }

  lemma {:induction false} ReceivesNext(s: State, step: Step)
    requires Enabled(s, step) && Receives(step)
    ensures OnlyMoved(s, Next(s, step), step.at)
    ensures Next(s, step).nodes[step.at].m ==
            Handle(s.nodes[step.at].m, Input(s.nodes[step.at].m.Self(), step), step.env)
  {
    hide Handle, Input;
  }

  lemma {:induction false} BelowAfterOwnMove(s: State, s': State, x: Name, inc: int)
    requires OnlyMoved(s, s', x) && NodesBelow(s, x, inc) && CarriedBelow(s, x, inc)
    ensures AllBelow(s', x, inc)
  {
  }

  lemma {:induction false} OthersBelow(s: State, s': State, x: Name)
    requires ClusterInv(s) && x in s.nodes && x in s.nodes[x].m.table && OnlyMoved(s, s', x)
    ensures AllBelow(s', x, Own(s, x) + 1)
  {
    hide ClusterInv, AllBelow, NodesBelow, CarriedBelow, OnlyMoved;
    NodesBelowOwn(s, x);
    CarriedBelowOwn(s, x);
    BelowAfterOwnMove(s, s', x, Own(s, x) + 1);
  }

  /** An accusation that is not outdated reaches a member that has not left, by gossip or in a snapshot. */
  predicate Accuses(s: State, step: Step) {
    && Receives(step) && step.at in s.nodes && step.at in s.nodes[step.at].m.table && !s.nodes[step.at].m.leaving
    && var msg := Input(step.at, step);
       msg.node == step.at && !msg.Alive? && msg.inc >= Own(s, step.at)
  }

  lemma {:induction false} AccusationCurrent(s: State, step: Step)
    requires ClusterInv(s) && Enabled(s, step) && Accuses(s, step)
    ensures var m := s.nodes[step.at].m;
            InOrder(m) && m.Self() == step.at && Input(step.at, step).inc == m.counter == Own(s, step.at)
  {
    hide ClusterInv, InOrder, NodeOk, Input;
    MemberOf(s, step.at);
    InputOk(s, step);
  }

  /** A refutation wins: the accusation is answered with an incarnation above it and above everything the rest of the
      cluster holds about the accused member. */
  lemma {:induction false} RefutationTopsEverything(s: State, step: Step)
    requires ClusterInv(s) && Enabled(s, step) && Accuses(s, step)
    ensures var s', x := Next(s, step), step.at;
            && x in s'.nodes
            && var m' := s'.nodes[x].m;
               && x in m'.table && m'.table[x].inc == m'.counter > Input(x, step).inc
               && x in m'.queue && m'.queue[x] == Alive(m'.counter, x, m'.cfg.addr)
               && AllBelow(s', x, m'.counter)
  {
    hide ClusterInv, Next, AllBelow, Handle, InOrder, Input, OnlyMoved;
    ReceivesNext(s, step);
    NextAt(s, step, step.at);
    AccusationCurrent(s, step);
    AccusationRefuted(s.nodes[step.at].m, Input(step.at, step), step.env);
    OthersBelow(s, Next(s, step), step.at);
  }

  lemma {:induction false} NewsAccepted(m: Member, a: Message, env: Env)
    requires a.Alive? && a.node != m.Self() && a.inc > 0
    requires a.node in m.table ==> m.table[a.node].inc < a.inc && m.table[a.node].addr == a.addr
    ensures var m' := Handle(m, a, env);
            && a.node in m'.table && m'.table[a.node].status.StateAlive? && m'.table[a.node].inc == a.inc
            && a.node !in m'.timers
            && a.node in m'.queue && m'.queue[a.node] == a
  {
  }

  /** An Alive that reaches anybody who is not yet that far makes the record alive and stops the suspicion, whatever
      state the record was in. */
  lemma {:induction false} RefutationAccepted(s: State, step: Step)
    requires ClusterInv(s) && Enabled(s, step) && Receives(step)
    requires var o, a := step.at, Input(step.at, step);
             && a.Alive? && a.node != o && a.inc > 0
             && (a.node in s.nodes[o].m.table ==> s.nodes[o].m.table[a.node].inc < a.inc)
    ensures step.at in Next(s, step).nodes
    ensures var m, a := Next(s, step).nodes[step.at].m, Input(step.at, step);
            && a.node in m.table && m.table[a.node].status.StateAlive? && m.table[a.node].inc == a.inc
            && a.node !in m.timers
            && a.node in m.queue && m.queue[a.node] == a
  {
    var m, a := s.nodes[step.at].m, Input(step.at, step);
    hide ClusterInv, Next, Handle, InOrder, NodeOk, Input, OnlyMoved;
    MemberOf(s, step.at);
    InputOk(s, step);
    ReceivesNext(s, step);
    NextAt(s, step, step.at);
    if a.node in m.table {
      RecordOf(s, step.at, a.node);
    }
    NewsAccepted(m, a, step.env);
  }

  lemma {:induction false} GossipSends(s: State, x: Name)
    requires Enabled(s, Gossip(x, {x}, {})) && x in s.nodes[x].m.queue
    ensures var s' := Next(s, Gossip(x, {x}, {}));
            && s.nodes[x].m.queue[x] in s'.net
            && forall o :: o in s.nodes && o != x ==> o in s'.nodes && s'.nodes[o] == s.nodes[o]
  {
  }

  lemma {:induction false} OthersWait(s: State, step: Step, o: Name)
    requires Enabled(s, step) && o in s.nodes && o != step.at
    ensures o in Next(s, step).nodes && Next(s, step).nodes[o] == s.nodes[o]
  {
    hide Moved, PendingAfter, SentBy, PublishedBy;
  }

  lemma {:induction false} RefutedCounter(s: State, step: Step)
    requires ClusterInv(s) && Enabled(s, step) && Accuses(s, step)
    ensures step.at in Next(s, step).nodes
    ensures Next(s, step).nodes[step.at].m.counter == s.nodes[step.at].m.counter + 1
  {
    hide ClusterInv, Handle, InOrder, Next, Input, OnlyMoved;
    ReceivesNext(s, step);
    NextAt(s, step, step.at);
    AccusationCurrent(s, step);
    AccusationRefuted(s.nodes[step.at].m, Input(step.at, step), step.env);
  }

  lemma {:induction false} CanGossip(s: State, x: Name)
    requires ClusterInv(s) && x in s.nodes && s.nodes[x].m.counter < UINT32_MAX - 1
    ensures Enabled(s, Gossip(x, {x}, {}))
  {
    hide ClusterInv, InOrder, NodeOk;
    MemberOf(s, x);
  }

  lemma {:induction false} BelowAt(s: State, x: Name, inc: int, o: Name)
    requires AllBelow(s, x, inc) && o in s.nodes && o != x
    ensures x in s.nodes[o].m.table ==> s.nodes[o].m.table[x].inc < inc
  {
  }

  /** The accused member has refuted: its queue holds the answer and everybody else is behind it. */
  ghost predicate Refuted(s: State, x: Name, accused: U32) {
    && ClusterInv(s) && x in s.nodes && x in s.nodes[x].m.queue && x in s.nodes[x].m.table
    && s.nodes[x].m.queue[x].Alive? && s.nodes[x].m.queue[x].node == x && s.nodes[x].m.queue[x].inc > accused
    && AllBelow(s, x, s.nodes[x].m.queue[x].inc)
  }

  lemma {:induction false} RefutedAfterAccusation(s: State, step: Step)
    requires ClusterInv(s) && Enabled(s, step) && Accuses(s, step)
    ensures Refuted(Next(s, step), step.at, Input(step.at, step).inc)
  {
    hide ClusterInv, AllBelow, Next, Forward, Enabled, Accuses, Input;
    NextKeeps(s, step);
    RefutationTopsEverything(s, step);
  }

  /** One packet of the accused member and its delivery to `o`. */
  lemma {:induction false} RefutedReaches(s: State, x: Name, accused: U32, o: Name, env: Env)
    requires Refuted(s, x, accused) && Enabled(s, Gossip(x, {x}, {}))
    requires o in s.nodes && o != x && s.nodes[o].m.counter < UINT32_MAX - 1
    ensures var s2, a := Next(s, Gossip(x, {x}, {})), s.nodes[x].m.queue[x];
            && Enabled(s2, Deliver(o, a, env))
            && var m := Next(s2, Deliver(o, a, env)).nodes[o].m;
               x in m.table && m.table[x].status.StateAlive? && m.table[x].inc == a.inc && x !in m.timers
  {
    hide ClusterInv, AllBelow, Next, Forward;
    var s2, a := Next(s, Gossip(x, {x}, {})), s.nodes[x].m.queue[x];
    GossipSends(s, x);
    NextKeeps(s, Gossip(x, {x}, {}));
    BelowAt(s, x, a.inc, o);
    MemberOf(s2, o);
    RefutationAccepted(s2, Deliver(o, a, env));
  }

  /** End to end: from every reachable state in which an accusation reaches a member that has not left, one packet
      from that member makes any other member see it as alive again, even one that holds it suspect or dead. */
  lemma {:induction false} RefutationWins(s0: State, steps: seq<Step>, step: Step, o: Name, env: Env)
    requires Init(s0) && Runs(s0, steps) && Enabled(After(s0, steps), step) && Accuses(After(s0, steps), step)
    requires var s := After(s0, steps);
             && s.nodes[step.at].m.counter < UINT32_MAX - 2
             && o in s.nodes && o != step.at && s.nodes[o].m.counter < UINT32_MAX - 1
    ensures var s1, x, accused := Next(After(s0, steps), step), step.at, Input(step.at, step).inc;
            && Refuted(s1, x, accused) && Enabled(s1, Gossip(x, {x}, {}))
            && var s2, a := Next(s1, Gossip(x, {x}, {})), s1.nodes[x].m.queue[x];
               && Enabled(s2, Deliver(o, a, env))
               && var m := Next(s2, Deliver(o, a, env)).nodes[o].m;
                  x in m.table && m.table[x].status.StateAlive? && m.table[x].inc == a.inc > accused && x !in m.timers
  {
    var s := After(s0, steps);
    InitKeeps(s0);
    RunKeepsCluster(s0, steps);
    hide Init, Runs, After, ClusterInv, Next, Forward, AllBelow, Accuses, Input;
    RefutedAfterAccusation(s, step);
    RefutedCounter(s, step);
    CanGossip(Next(s, step), step.at);
    OthersWait(s, step, o);
    RefutedReaches(Next(s, step), step.at, Input(step.at, step).inc, o, env);
  }

  // ---------------------------------------------------------------- departures spread

  /** Any set of members with distinct names can start a cluster. */
  lemma {:induction false} EveryClusterStarts(cfgs: map<Name, Config>, env: Env)
    requires forall n :: n in cfgs ==> cfgs[n].name == n
    ensures Init(State(map n | n in cfgs :: Node(Start(cfgs[n], env), {}), {}, {}))
  {
    hide Start;
    var s := State(map n | n in cfgs :: Node(Start(cfgs[n], env), {}), {}, {});
    forall a | a in s.nodes
      ensures exists env, cfg: Config :: s.nodes[a] == Node(Start(cfg, env), {}) && cfg.name == a
    {
      assert s.nodes[a] == Node(Start(cfgs[a], env), {}) && cfgs[a].name == a;
    }
  }

  lemma {:induction false} SelfKnown(s: State, x: Name)
    requires ClusterInv(s) && x in s.nodes
    ensures s.nodes[x].m.Self() == x && x in s.nodes[x].m.table
  {
    hide ClusterInv, InOrder, NodeOk;
    MemberOf(s, x);
  }

  lemma {:induction false} LeaveNext(s: State, x: Name, env: Env)
    requires ClusterInv(s) && Enabled(s, LeaveCluster(x, env)) && !s.nodes[x].m.leaving && x in s.nodes[x].m.table
    ensures var s1 := Next(s, LeaveCluster(x, env));
            && ClusterInv(s1) && Enabled(s1, Gossip(x, {x}, {}))
            && x in s1.nodes[x].m.queue && s1.nodes[x].m.queue[x] == Dead(Own(s, x), x, x)
  {
    hide ClusterInv, Next, InOrder, NodeOk, SelfOk, Leave, Forward;
    MemberOf(s, x);
    NextKeeps(s, LeaveCluster(x, env));
    NextAt(s, LeaveCluster(x, env), x);
    SelfKnown(Next(s, LeaveCluster(x, env)), x);
    LeaveEffect(s.nodes[x].m, env);
  }

  /** What a departure does to a record that is not ahead of it. */
  lemma {:induction false} DepartureHandled(m: Member, x: Name, inc: U32, env: Env)
    requires x in m.table && x != m.Self() && m.table[x].inc <= inc && !m.table[x].status.StateLeft?
    ensures var m' := Handle(m, Dead(inc, x, x), env);
            && x in m'.table
            && (m'.table[x].status.StateLeft? <==> !m.table[x].status.StateDead?)
            && (m'.table[x].status.StateLeft? ==> m'.table[x].inc == inc)
            && m'.table[x].DeadOrLeft() && x !in m'.timers
  {
  }

  /** The packet in which a departing member says goodbye, delivered to `o`, who knows it. */
  lemma {:induction false} GoodbyeReaches(s: State, x: Name, inc: U32, o: Name, env: Env)
    requires ClusterInv(s) && Enabled(s, Gossip(x, {x}, {}))
    requires x in s.nodes[x].m.queue && s.nodes[x].m.queue[x] == Dead(inc, x, x)
    requires o in s.nodes && o != x && s.nodes[o].m.counter < UINT32_MAX - 1
    requires x in s.nodes[o].m.table && s.nodes[o].m.table[x].inc <= inc && !s.nodes[o].m.table[x].status.StateLeft?
    ensures var s2 := Next(s, Gossip(x, {x}, {}));
            && Enabled(s2, Deliver(o, Dead(inc, x, x), env))
            && var m := Next(s2, Deliver(o, Dead(inc, x, x), env)).nodes[o].m;
               && x in m.table
               && (m.table[x].status.StateLeft? <==> !s.nodes[o].m.table[x].status.StateDead?)
               && (m.table[x].status.StateLeft? ==> m.table[x].inc == inc)
               && m.table[x].DeadOrLeft() && x !in m.timers
  {
    hide ClusterInv, Next, Forward, Handle, InOrder, NodeOk;
    var s2 := Next(s, Gossip(x, {x}, {}));
    GossipSends(s, x);
    MemberOf(s, o);
    ReceivesNext(s2, Deliver(o, Dead(inc, x, x), env));
    DepartureHandled(s2.nodes[o].m, x, inc, env);
  }

  /** A departure is believed: from every reachable state, the one packet a leaving member sends stops its suspicion at
      any member that knows it and makes the record Left with its last incarnation, if and only if that member did not
      hold it Dead already. */
  lemma {:induction false} DepartureReaches(s0: State, steps: seq<Step>, x: Name, o: Name, env: Env)
    requires Init(s0) && Runs(s0, steps) && Enabled(After(s0, steps), LeaveCluster(x, env))
    requires var s := After(s0, steps);
             && !s.nodes[x].m.leaving && x in s.nodes[x].m.table
             && o in s.nodes && o != x && s.nodes[o].m.counter < UINT32_MAX - 1 && x in s.nodes[o].m.table
    ensures var s := After(s0, steps);
            var s1, d := Next(s, LeaveCluster(x, env)), Dead(Own(s, x), x, x);
            && Enabled(s1, Gossip(x, {x}, {}))
            && var s2 := Next(s1, Gossip(x, {x}, {}));
               && Enabled(s2, Deliver(o, d, env))
               && var m := Next(s2, Deliver(o, d, env)).nodes[o].m;
                  && x in m.table && m.table[x].DeadOrLeft() && x !in m.timers
                  && (m.table[x].status.StateLeft? <==> !s.nodes[o].m.table[x].status.StateDead?)
                  && (m.table[x].status.StateLeft? ==> m.table[x].inc == Own(s, x))
  {
    var s := After(s0, steps);
    InitKeeps(s0);
    RunKeepsCluster(s0, steps);
    hide Init, Runs, After, ClusterInv, Next, Forward;
    LeaveNext(s, x, env);
    OthersWait(s, LeaveCluster(x, env), o);
    RecordOf(s, o, x);
    GoodbyeReaches(Next(s, LeaveCluster(x, env)), x, Own(s, x), o, env);
  }

  // ---------------------------------------------------------------- what push/pull spreads

  lemma {:induction false} MergeOneNext(s: State, o: Name, e: PushState, env: Env)
    requires ClusterInv(s) && Enabled(s, MergeOne(o, e, env))
    ensures o in Next(s, MergeOne(o, e, env)).nodes && InOrder(s.nodes[o].m) && s.nodes[o].m.Self() == o
    ensures Next(s, MergeOne(o, e, env)).nodes[o].m == Merge(s.nodes[o].m, [e], [env]) && EntryOk(s, e)
  {
    hide ClusterInv, InOrder, NodeOk, Handle, Next, Merge, EntryOk;
    MemberOf(s, o);
    CarriedOf(s);
    NextAt(s, MergeOne(o, e, env), o);
    MergeOfOne(s.nodes[o].m, e, env);
    MovedReceives(s.nodes[o].m, MergeOne(o, e, env));
  }

  lemma {:induction false} OrderIsSound(m: Member)
    requires InOrder(m)
    ensures Inv(m)
  {
  }

  /** A departure that travels in a snapshot is believed like one that is gossiped: from every reachable state, merging
      the entry at a member that holds the departed one alive or suspect makes the record Left with the last incarnation
      of the departed member, stops the suspicion, and is gossiped on as the departure it is. */
  lemma {:induction false} SnapshotOfDeparture(s0: State, steps: seq<Step>, o: Name, e: PushState, env: Env)
    requires Init(s0) && Runs(s0, steps) && Enabled(After(s0, steps), MergeOne(o, e, env)) && e.status.StateLeft?
    requires var m := After(s0, steps).nodes[o].m; e.name in m.table && !m.table[e.name].DeadOrLeft()
    ensures var s, x := After(s0, steps), e.name;
            && x in s.nodes && x in s.nodes[x].m.table && e.inc == Own(s, x)
            && o in Next(s, MergeOne(o, e, env)).nodes
            && var m, m' := s.nodes[o].m, Next(s, MergeOne(o, e, env)).nodes[o].m;
               && m'.table == m.table[x := Record(m.table[x].addr, e.inc, StateLeft, env.now)]
               && x !in m'.timers
               && m'.queue == m.queue[x := Dead(e.inc, x, x)]
  {
    var s := After(s0, steps);
    InitKeeps(s0);
    RunKeepsCluster(s0, steps);
    hide Init, Runs, After, ClusterInv, Next, Forward, InOrder, NodeOk, Merge;
    MergeOneNext(s, o, e, env);
    MemberOf(s, o);
    RecordOf(s, o, e.name);
    OrderIsSound(s.nodes[o].m);
    MergedDeparture(s.nodes[o].m, e, env);
  }

  /** A Suspect or Dead entry about a member held alive makes it suspect, with the merging member as the only confirmer,
      and is gossiped on as that member's own suspicion. */
  lemma {:induction false} SnapshotOfSuspicion(s0: State, steps: seq<Step>, o: Name, e: PushState, env: Env)
    requires Init(s0) && Runs(s0, steps) && Enabled(After(s0, steps), MergeOne(o, e, env))
    requires (e.status.StateSuspect? || e.status.StateDead?) && e.name != o
    requires var m := After(s0, steps).nodes[o].m;
             e.name in m.table && m.table[e.name].status.StateAlive? && e.inc >= m.table[e.name].inc
    ensures var s, x := After(s0, steps), e.name;
            && o in Next(s, MergeOne(o, e, env)).nodes
            && var m, m' := s.nodes[o].m, Next(s, MergeOne(o, e, env)).nodes[o].m;
               && m'.table == m.table[x := Record(m.table[x].addr, e.inc, StateSuspect, env.now)]
               && x in m'.timers && m'.timers[x].tally.confirmers == {o} && m'.timers[x].tally.n == 0
               && m'.queue == m.queue[x := Suspect(e.inc, x, o)]
  {
    var s := After(s0, steps);
    InitKeeps(s0);
    RunKeepsCluster(s0, steps);
    hide Init, Runs, After, ClusterInv, Next, Forward, InOrder, NodeOk, Merge;
    MergeOneNext(s, o, e, env);
    MemberOf(s, o);
    OrderIsSound(s.nodes[o].m);
    MergedSuspicion(s.nodes[o].m, e, env);
  }

  // ---------------------------------------------------------------- what timers, probes and snapshots lead to

  lemma {:induction false} FinishNext(s: State, o: Name, msg: Message, env: Env)
    requires Enabled(s, Finish(o, msg, env))
    ensures o in Next(s, Finish(o, msg, env)).nodes
    ensures Next(s, Finish(o, msg, env)).nodes[o].m == Handle(s.nodes[o].m, msg, env)
    ensures Next(s, Finish(o, msg, env)).nodes[o].pending == s.nodes[o].pending - {msg}
  {
    hide Handle;
  }

  lemma {:induction false} TimerNext(s: State, o: Name, x: Name, raised: int, env: Env)
    requires Enabled(s, TimerFires(o, x, raised))
    ensures var s1, d := Next(s, TimerFires(o, x, raised)), Dead(s.nodes[o].m.table[x].inc, x, s.nodes[o].m.Self());
            o in s1.nodes && s1.nodes[o].m == s.nodes[o].m && Enabled(s1, Finish(o, d, env))
  {
  }

  lemma {:induction false} ProbeNext(s: State, o: Name, x: Name, env: Env)
    requires Enabled(s, ProbeFails(o, x))
    ensures var s1, a := Next(s, ProbeFails(o, x)), Suspect(s.nodes[o].m.table[x].inc, x, s.nodes[o].m.Self());
            && o in s1.nodes && s1.nodes[o].m == s.nodes[o].m && Enabled(s1, Finish(o, a, env))
            && (s.nodes[o].m.table[x].status.StateSuspect? ==> a in s1.net)
  {
  }

  lemma {:induction false} PublishNext(s: State, a: Name, o: Name, x: Name, env: Env)
    requires Enabled(s, Publish(a)) && x in s.nodes[a].m.table && o in s.nodes
    requires s.nodes[o].m.Self() in s.nodes[o].m.table && s.nodes[o].m.counter < UINT32_MAX - 1
    ensures var s1, e := Next(s, Publish(a)), Entry(x, s.nodes[a].m.table[x]);
            o in s1.nodes && s1.nodes[o].m == s.nodes[o].m && Enabled(s1, MergeOne(o, e, env))
  {
  }

  lemma {:induction false} TimeoutKillsHere(s: State, o: Name, x: Name, raised: int, env: Env)
    requires ClusterInv(s) && Enabled(s, TimerFires(o, x, raised))
    ensures var s1, d := Next(s, TimerFires(o, x, raised)), Dead(s.nodes[o].m.table[x].inc, x, o);
            && Enabled(s1, Finish(o, d, env)) && o in Next(s1, Finish(o, d, env)).nodes
            && var m, m' := s.nodes[o].m, Next(s1, Finish(o, d, env)).nodes[o].m;
               && m'.table == m.table[x := Record(m.table[x].addr, m.table[x].inc, StateDead, env.now)]
               && x !in m'.timers && m'.queue == m.queue[x := d]
  {
    hide ClusterInv, Next, InOrder, Inv, NodeOk, Handle;
    MemberOf(s, o);
    OrderIsSound(s.nodes[o].m);
    SuspectIsOther(s.nodes[o].m, x, raised);
    TimerNext(s, o, x, raised, env);
    var d := Dead(s.nodes[o].m.table[x].inc, x, o);
    DeathStored(s.nodes[o].m, d, env);
    FinishNext(Next(s, TimerFires(o, x, raised)), o, d, env);
  }

  /** A suspicion that stands when its timer fires ends in death, unless something intervenes: the two halves of the
      callback make the record Dead with the suspected incarnation and the time of the second half, and gossip it. */
  lemma {:induction false} TimeoutKills(s0: State, steps: seq<Step>, o: Name, x: Name, raised: int, env: Env)
    requires Init(s0) && Runs(s0, steps) && Enabled(After(s0, steps), TimerFires(o, x, raised))
    ensures var s := After(s0, steps);
            var s1, d := Next(s, TimerFires(o, x, raised)), Dead(s.nodes[o].m.table[x].inc, x, o);
            && Enabled(s1, Finish(o, d, env)) && o in Next(s1, Finish(o, d, env)).nodes
            && var m, m' := s.nodes[o].m, Next(s1, Finish(o, d, env)).nodes[o].m;
               && m'.table == m.table[x := Record(m.table[x].addr, m.table[x].inc, StateDead, env.now)]
               && x !in m'.timers && m'.queue == m.queue[x := d]
  {
    hide Init, Runs, After, ClusterInv, Next, Forward;
    InitKeeps(s0);
    RunKeepsCluster(s0, steps);
    TimeoutKillsHere(After(s0, steps), o, x, raised, env);
  }

  lemma {:induction false} ProbeAccusesHere(s: State, o: Name, x: Name, env: Env)
    requires ClusterInv(s) && Enabled(s, ProbeFails(o, x))
    ensures var s1, a := Next(s, ProbeFails(o, x)), Suspect(s.nodes[o].m.table[x].inc, x, o);
            && Enabled(s1, Finish(o, a, env)) && o in Next(s1, Finish(o, a, env)).nodes
            && var m, m' := s.nodes[o].m, Next(s1, Finish(o, a, env)).nodes[o].m;
               if m.table[x].status.StateAlive?
               then && m'.table == m.table[x := Record(m.table[x].addr, m.table[x].inc, StateSuspect, env.now)]
                    && x in m'.timers && m'.timers[x].tally.confirmers == {o}
                    && m'.queue == m.queue[x := a]
               else a in s1.net && m'.table == m.table
  {
    hide ClusterInv, Next, InOrder, Inv, NodeOk, Handle;
    MemberOf(s, o);
    OrderIsSound(s.nodes[o].m);
    ProbeNext(s, o, x, env);
    var a := Suspect(s.nodes[o].m.table[x].inc, x, o);
    if s.nodes[o].m.table[x].status.StateAlive? {
      SuspicionOpens(s.nodes[o].m, a, env);
    } else {
      SuspicionConfirmed(s.nodes[o].m, a, env);
    }
    FinishNext(Next(s, ProbeFails(o, x)), o, a, env);
  }

  /** A failed probe of an alive member makes it suspect, with the prober as the only confirmer, and is gossiped; one of
      a suspect is also told to the suspect itself. */
  lemma {:induction false} ProbeAccuses(s0: State, steps: seq<Step>, o: Name, x: Name, env: Env)
    requires Init(s0) && Runs(s0, steps) && Enabled(After(s0, steps), ProbeFails(o, x))
    ensures var s := After(s0, steps);
            var s1, a := Next(s, ProbeFails(o, x)), Suspect(s.nodes[o].m.table[x].inc, x, o);
            && Enabled(s1, Finish(o, a, env)) && o in Next(s1, Finish(o, a, env)).nodes
            && var m, m' := s.nodes[o].m, Next(s1, Finish(o, a, env)).nodes[o].m;
               if m.table[x].status.StateAlive?
               then && m'.table == m.table[x := Record(m.table[x].addr, m.table[x].inc, StateSuspect, env.now)]
                    && x in m'.timers && m'.timers[x].tally.confirmers == {o}
                    && m'.queue == m.queue[x := a]
               else a in s1.net && m'.table == m.table
  {
    hide Init, Runs, After, ClusterInv, Next, Forward;
    InitKeeps(s0);
    RunKeepsCluster(s0, steps);
    ProbeAccusesHere(After(s0, steps), o, x, env);
  }

  lemma {:induction false} SnapshotSpreadsHere(s: State, a: Name, o: Name, x: Name, env: Env)
    requires ClusterInv(s) && Enabled(s, Publish(a))
    requires x in s.nodes[a].m.table && s.nodes[a].m.table[x].status.StateAlive? && s.nodes[a].m.table[x].inc > 0
    requires o in s.nodes && s.nodes[o].m.counter < UINT32_MAX - 1 && x !in s.nodes[o].m.table
    ensures var s1, e := Next(s, Publish(a)), Entry(x, s.nodes[a].m.table[x]);
            && Enabled(s1, MergeOne(o, e, env)) && o in Next(s1, MergeOne(o, e, env)).nodes
            && var m, m' := s.nodes[o].m, Next(s1, MergeOne(o, e, env)).nodes[o].m;
               x in m'.table && Entry(x, m'.table[x]) == e && m'.queue == m.queue[x := Alive(e.inc, x, e.addr)]
  {
    hide ClusterInv, Next, Forward, InOrder, Inv, NodeOk, Handle, Merge;
    MemberOf(s, o);
    OrderIsSound(s.nodes[o].m);
    PublishNext(s, a, o, x, env);
    NextKeeps(s, Publish(a));
    var e := Entry(x, s.nodes[a].m.table[x]);
    MergeOneNext(Next(s, Publish(a)), o, e, env);
    MergeOfOne(s.nodes[o].m, e, env);
    AliveIntroduces(s.nodes[o].m, Alive(e.inc, x, e.addr), env);
  }

  /** Membership spreads by push/pull: whom `a` knows as alive, `o` learns from a snapshot of `a`, under the same record
      and with gossip. */
  lemma {:induction false} SnapshotSpreads(s0: State, steps: seq<Step>, a: Name, o: Name, x: Name, env: Env)
    requires Init(s0) && Runs(s0, steps) && Enabled(After(s0, steps), Publish(a))
    requires var s := After(s0, steps);
             && x in s.nodes[a].m.table && s.nodes[a].m.table[x].status.StateAlive? && s.nodes[a].m.table[x].inc > 0
             && o in s.nodes && s.nodes[o].m.counter < UINT32_MAX - 1 && x !in s.nodes[o].m.table
    ensures var s := After(s0, steps);
            var s1, e := Next(s, Publish(a)), Entry(x, s.nodes[a].m.table[x]);
            && Enabled(s1, MergeOne(o, e, env)) && o in Next(s1, MergeOne(o, e, env)).nodes
            && var m, m' := s.nodes[o].m, Next(s1, MergeOne(o, e, env)).nodes[o].m;
               x in m'.table && Entry(x, m'.table[x]) == e && m'.queue == m.queue[x := Alive(e.inc, x, e.addr)]
  {
    hide Init, Runs, After, ClusterInv, Next, Forward;
    InitKeeps(s0);
    RunKeepsCluster(s0, steps);
    SnapshotSpreadsHere(After(s0, steps), a, o, x, env);
  }

  // ---------------------------------------------------------------- announcements spread

  /** `x` has `a` queued about itself and can gossip. */
  ghost predicate ReadyToSay(s: State, x: Name, a: Message) {
    && ClusterInv(s) && Enabled(s, Gossip(x, {x}, {}))
    && x in s.nodes[x].m.queue && s.nodes[x].m.queue[x] == a
  }

  /** `o` holds `x` alive with this incarnation and does not suspect it. */
  predicate HoldsAlive(s: State, o: Name, x: Name, inc: int) {
    && o in s.nodes && x in s.nodes[o].m.table && x !in s.nodes[o].m.timers
    && s.nodes[o].m.table[x].status.StateAlive? && s.nodes[o].m.table[x].inc == inc
  }

  lemma {:induction false} AnnouncedAs(m: Member, env: Env, a: Message)
    requires InOrder(m) && !m.leaving && m.counter < UINT32_MAX - 1
    requires a.Alive? && a.inc == m.counter + 2 && a.node == m.Self() && a.addr == m.cfg.addr
    ensures m.Self() in m.table && m.table[m.Self()].inc == m.counter
    ensures Update(m, env).counter == m.counter + 2
    ensures m.Self() in Update(m, env).queue && Update(m, env).queue[m.Self()] == a
  {
    assert SlotOk(m, m.Self());
    UpdateIsRefuted(m, env);
    hide Update, SlotOk;
  }

  lemma {:induction false} AnnounceNext(s: State, x: Name, env: Env, a: Message)
    requires Enabled(s, Announce(x, env)) && ClusterInv(s)
    requires !s.nodes[x].m.leaving && s.nodes[x].m.counter < UINT32_MAX - 3
    requires a.Alive? && a.inc == s.nodes[x].m.counter + 2 && a.node == x && a.addr == s.nodes[x].m.cfg.addr
    ensures ReadyToSay(Next(s, Announce(x, env)), x, a)
    ensures x in s.nodes[x].m.table && Own(s, x) < a.inc
  {
    hide ClusterInv, Next, InOrder, Inv, NodeOk, SelfOk, Update, Forward;
    MemberOf(s, x);
    NextKeeps(s, Announce(x, env));
    NextAt(s, Announce(x, env), x);
    SelfKnown(Next(s, Announce(x, env)), x);
    AnnouncedAs(s.nodes[x].m, env, a);
  }

  /** What a member says about itself reaches anybody who is not that far. */
  lemma {:induction false} SayingReaches(s: State, x: Name, a: Message, o: Name, env: Env)
    requires ReadyToSay(s, x, a) && a.Alive? && a.node == x && a.inc > 0
    requires o in s.nodes && o != x && s.nodes[o].m.counter < UINT32_MAX - 1
    requires x in s.nodes[o].m.table ==> s.nodes[o].m.table[x].inc < a.inc
    ensures var s2 := Next(s, Gossip(x, {x}, {}));
            Enabled(s2, Deliver(o, a, env)) && HoldsAlive(Next(s2, Deliver(o, a, env)), o, x, a.inc)
  {
    hide ClusterInv, Next, Forward, InOrder, Inv, NodeOk;
    GossipSends(s, x);
    NextKeeps(s, Gossip(x, {x}, {}));
    MemberOf(Next(s, Gossip(x, {x}, {})), o);
    RefutationAccepted(Next(s, Gossip(x, {x}, {})), Deliver(o, a, env));
  }

  lemma {:induction false} AnnouncementReachesHere(s: State, x: Name, o: Name, a: Message, env: Env)
    requires Enabled(s, Announce(x, env)) && ClusterInv(s)
    requires !s.nodes[x].m.leaving && s.nodes[x].m.counter < UINT32_MAX - 3
    requires o in s.nodes && o != x && s.nodes[o].m.counter < UINT32_MAX - 1
    requires a.Alive? && a.inc == s.nodes[x].m.counter + 2 && a.node == x && a.addr == s.nodes[x].m.cfg.addr
    ensures var s1 := Next(s, Announce(x, env));
            && ReadyToSay(s1, x, a)
            && var s2 := Next(s1, Gossip(x, {x}, {}));
               Enabled(s2, Deliver(o, a, env)) && HoldsAlive(Next(s2, Deliver(o, a, env)), o, x, a.inc)
  {
    hide ClusterInv, Next, Enabled, HoldsAlive, ReadyToSay;
    AnnounceNext(s, x, env, a);
    OthersWait(s, Announce(x, env), o);
    if x in s.nodes[o].m.table {
      RecordOf(s, o, x);
    }
    SayingReaches(Next(s, Announce(x, env)), x, a, o, env);
  }

  /** An announcement is news to everybody: from every reachable state, one packet after `UpdateNode` makes any other
      member hold the announcing one alive, two incarnations further on. */
  lemma {:induction false} AnnouncementReaches(s0: State, steps: seq<Step>, x: Name, o: Name, a: Message, env: Env)
    requires Init(s0) && Runs(s0, steps) && Enabled(After(s0, steps), Announce(x, env))
    requires var s := After(s0, steps);
             && !s.nodes[x].m.leaving && s.nodes[x].m.counter < UINT32_MAX - 3
             && o in s.nodes && o != x && s.nodes[o].m.counter < UINT32_MAX - 1
             && a.Alive? && a.inc == s.nodes[x].m.counter + 2 && a.node == x && a.addr == s.nodes[x].m.cfg.addr
    ensures var s1 := Next(After(s0, steps), Announce(x, env));
            && ReadyToSay(s1, x, a)
            && var s2 := Next(s1, Gossip(x, {x}, {}));
               Enabled(s2, Deliver(o, a, env)) && HoldsAlive(Next(s2, Deliver(o, a, env)), o, x, a.inc)
  {
    hide Init, Runs, After, ClusterInv, Next, Forward, HoldsAlive, ReadyToSay;
    InitKeeps(s0);
    RunKeepsCluster(s0, steps);
    AnnouncementReachesHere(After(s0, steps), x, o, a, env);
  }
}
