/** The member as an object: shared node states, timers, counter, leave flag and queue, updated in place. */
module Memberlists {
  import opened Wire
  import opened Suspicions
  import opened Protocol
  import opened ProtocolEffects
  import opened ProbeSchedule
  import opened BroadcastOrder
  import opened BroadcastQueues
  import opened Scaling
  import QueueHistory

  class NodeState {
    const name: Name
    var addr: Address
    var inc: U32
    var status: Status
    var changed: int

    constructor (name: Name, addr: Address, inc: U32, status: Status, changed: int)
      ensures this.name == name && Value() == Record(addr, inc, status, changed)
    {
      this.name, this.addr, this.inc, this.status, this.changed := name, addr, inc, status, changed;
    }

    function Value(): Record
      reads this
    {
      Record(addr, inc, status, changed)
    }

    method Set(r: Record)
      modifies this
      ensures Value() == r
    {
      addr, inc, status, changed := r.addr, r.inc, r.status, r.changed;
    }
  }

  function Names(nodes: seq<NodeState>): seq<Name> {
    seq(|nodes|, i requires 0 <= i < |nodes| => nodes[i].name)
  }

  /** `nodes` lists every known state once, and `nodeMap` finds each under its name. */
  ghost predicate Listed(nodes: seq<NodeState>, nodeMap: map<Name, NodeState>) {
    && |nodes| == |nodeMap|
    && NoDuplicates(Names(nodes))
    && (forall n :: n in nodeMap ==> nodeMap[n].name == n && nodeMap[n] in nodes)
    && (forall i :: 0 <= i < |nodes| ==> nodes[i].name in nodeMap && nodeMap[nodes[i].name] == nodes[i])
  }

  ghost function Table(nodeMap: map<Name, NodeState>): map<Name, Record>
    reads nodeMap.Values
  {
    map n | n in nodeMap :: nodeMap[n].Value()
  }

  ghost function Timers(nodeTimers: map<Name, Suspicion>): map<Name, Timer>
    reads nodeTimers.Values
  {
    map n | n in nodeTimers :: Timer(nodeTimers[n].Count(), nodeTimers[n].f.raised)
  }

  /** Every timer runs since its suspicion was raised, for at least `base` and at most a multiple of its minimum. */
  ghost predicate TimersValid(nodeTimers: map<Name, Suspicion>, base: int, maxMult: nat)
    reads nodeTimers.Values
  {
    forall n :: n in nodeTimers ==>
      var t := nodeTimers[n];
      && t.f.node == n && t.Valid()
      && t.start == t.f.raised && base <= t.min && t.max == maxMult * t.min
  }

  /** What timeouts are computed from; the two logarithms are whatever increasing functions the platform offers. */
  datatype Timing = Timing(lg: nat -> real, log10: nat -> real, probeInterval: nat, maxTimeoutMult: nat) {
    ghost predicate Valid() {
      IsLog(lg) && IsLog(log10) && maxTimeoutMult >= 1
    }
  }

  const MESSAGE_DATA_OVERHEAD: nat := 4

  // ---------------------------------------------------------------- the probe order

  /** A new state goes to a random position; the one it displaces moves to the end. */
  function Spread(nodes: seq<NodeState>, state: NodeState, rnd: nat): seq<NodeState> {
    if nodes == [] then [state]
    else
      var offset := rnd % |nodes|;
      (nodes + [nodes[offset]])[offset := state]
  }

  /** One node was added: at the drawn position, from where the node that stood there moved to the end. */
  ghost predicate Placed(nodes: seq<NodeState>, nodes': seq<NodeState>, rnd: nat, name: Name) {
    && |nodes'| == |nodes| + 1
    && var k := if nodes == [] then 0 else rnd % |nodes|;
       && nodes'[k].name == name
       && (nodes != [] ==> nodes'[|nodes|] == nodes[k])
       && forall i :: 0 <= i < |nodes| && i != k ==> nodes'[i] == nodes[i]
  }

  ghost predicate Reordered(nodes: seq<NodeState>, shuffled: seq<NodeState>) {
    && |nodes| == |shuffled|
    && Shuffle(Names(nodes), Names(shuffled))
    && forall i :: 0 <= i < |shuffled| ==> shuffled[i] in nodes
  }

  ghost function Eligible(m: Member): set<Name> {
    set n | n in m.table && n != m.Self() && !m.table[n].DeadOrLeft()
  }

  /** Everybody else who is held alive or suspect may be probed, and nobody else. */
  lemma {:induction false} EligibleIff(m: Member)
    ensures forall n :: n in Eligible(m) <==>
              n in m.table && n != m.Self() && m.table[n].status in {StateAlive, StateSuspect}
  {
  }

  /** The callback is that of the suspicion of `name` as it stands. */
  ghost predicate BelongsTo(cb: Callback, m: Member, name: Name) {
    name in m.timers && cb == Callback(name, m.timers[name].raised)
  }

  // ---------------------------------------------------------------- a round of gossip

  /** Gossip never goes to ourselves, to members that left, or to members dead for too long. */
  predicate Excluded(self: Name, name: Name, r: Record, now: int, deadTime: int) {
    || name == self
    || r.status.StateLeft?
    || (r.status.StateDead? && now - r.changed >= deadTime)
  }

  /** One of the first `n` draws hits `p` while it is not excluded. */
  ghost predicate Drawn(names: seq<Name>, p: Name, n: nat, draws: nat -> nat, clock: nat -> int, m: Member,
                        deadTime: int)
  {
    && p in m.table && names != []
    && exists i: nat ::
         i < n && names[draws(i) % |names|] == p && !Excluded(m.Self(), p, m.table[p], clock(i), deadTime)
  }

  lemma {:induction false} DrawnNext(names: seq<Name>, n: nat, draws: nat -> nat, clock: nat -> int, m: Member,
                                     deadTime: int)
    requires names != [] && names[draws(n) % |names|] in m.table
    ensures forall p :: Drawn(names, p, n + 1, draws, clock, m, deadTime) <==>
              || Drawn(names, p, n, draws, clock, m, deadTime)
              || (p == names[draws(n) % |names|] && !Excluded(m.Self(), p, m.table[p], clock(n), deadTime))
  {
    hide Excluded;
  }

  /** Who may be drawn, in the fields of its record: not ourselves, not a member that left, and a dead one only for
      `deadTime` after its death. */
  lemma {:induction false} DrawnExplicitly(names: seq<Name>, p: Name, n: nat, draws: nat -> nat, clock: nat -> int,
                                           m: Member, deadTime: int)
    ensures Drawn(names, p, n, draws, clock, m, deadTime) <==>
            && p in m.table && p != m.Self() && !m.table[p].status.StateLeft? && names != []
            && exists i: nat ::
                 && i < n && names[draws(i) % |names|] == p
                 && (m.table[p].status.StateDead? ==> clock(i) - m.table[p].changed < deadTime)
  {
  }

  lemma {:induction false} DrawnGrows(names: seq<Name>, n: nat, n': nat, draws: nat -> nat, clock: nat -> int,
                                      m: Member, deadTime: int)
    requires n <= n'
    ensures forall p :: Drawn(names, p, n, draws, clock, m, deadTime) ==> Drawn(names, p, n', draws, clock, m, deadTime)
  {
    hide Excluded;
  }

  /** The result of `GetBroadcasts`: something fits, or the uninitialised flag of a queue where nothing fits is set. */
  predicate Speaks(tq: seq<Item>, free: nat, junk: bool) {
    tq != [] && (Picks(tq, free) != [] || junk)
  }

  /** The packets for peers `i` up to `n`, until the queue has nothing to say. */
  function Packets(tq: seq<Item>, free: nat, limit: nat, junk: nat -> bool, i: nat, n: nat): seq<seq<Message>>
    decreases n - i
  {
    if i >= n || !Speaks(tq, free, junk(i)) then []
    else [Messages(Picks(tq, free))] + Packets(AfterPacket(tq, free, limit), free, limit, junk, i + 1, n)
  }

  function AfterPackets(tq: seq<Item>, free: nat, limit: nat, junk: nat -> bool, i: nat, n: nat): seq<Item>
    decreases n - i
  {
    if i >= n || !Speaks(tq, free, junk(i)) then tq
    else AfterPackets(AfterPacket(tq, free, limit), free, limit, junk, i + 1, n)
  }

  lemma {:induction false} PacketsNext(tq: seq<Item>, free: nat, limit: nat, junk: nat -> bool, i: nat, n: nat)
    requires i < n
    ensures Speaks(tq, free, junk(i)) ==>
              && Packets(tq, free, limit, junk, i, n)
                 == [Messages(Picks(tq, free))] + Packets(AfterPacket(tq, free, limit), free, limit, junk, i + 1, n)
              && AfterPackets(tq, free, limit, junk, i, n)
                 == AfterPackets(AfterPacket(tq, free, limit), free, limit, junk, i + 1, n)
    ensures !Speaks(tq, free, junk(i)) ==>
              && Packets(tq, free, limit, junk, i, n) == []
              && AfterPackets(tq, free, limit, junk, i, n) == tq == AfterPacket(tq, free, limit)
  {
    if !Speaks(tq, free, junk(i)) {
      SendsIffFits(tq, free);
      NothingFits(tq, free);
    }
  }

  /** The queue after `k` packets of one size. */
  function After(tq: seq<Item>, free: nat, limit: nat, k: nat): seq<Item> {
    QueueHistory.Drain(tq, seq(k, i => free), limit)
  }

  lemma {:induction false} AfterOneMore(tq: seq<Item>, free: nat, limit: nat, k: nat)
    ensures After(tq, free, limit, k + 1) == After(AfterPacket(tq, free, limit), free, limit, k)
    ensures After(tq, free, limit, 0) == tq
  {
    assert seq(k + 1, i => free)[1..] == seq(k, i => free);
  }

  /** A round of gossip is a draining of the queue: packet after packet, each filled from what the ones before left, as
      long as there are peers and the queue has something to say. */
  lemma {:induction false} RoundDrains(tq: seq<Item>, free: nat, limit: nat, junk: nat -> bool, i: nat, n: nat)
    requires i <= n
    ensures var packets := Packets(tq, free, limit, junk, i, n);
            && |packets| <= n - i
            && (forall k :: 0 <= k < |packets| ==> packets[k] == Messages(Picks(After(tq, free, limit, k), free)))
            && (forall k :: 0 <= k < |packets| ==> Speaks(After(tq, free, limit, k), free, junk(i + k)))
            && (|packets| < n - i ==> !Speaks(After(tq, free, limit, |packets|), free, junk(i + |packets|)))
            && AfterPackets(tq, free, limit, junk, i, n) == After(tq, free, limit, |packets|)
    decreases n - i
  {
    hide Speaks, Picks, AfterPacket, Messages, After;
    AfterOneMore(tq, free, limit, 0);
    if i < n && Speaks(tq, free, junk(i)) {
      var rest, tq' := Packets(AfterPacket(tq, free, limit), free, limit, junk, i + 1, n), AfterPacket(tq, free, limit);
      RoundDrains(tq', free, limit, junk, i + 1, n);
      var packets := [Messages(Picks(tq, free))] + rest;
      assert Packets(tq, free, limit, junk, i, n) == packets;
      AfterOneMore(tq, free, limit, |rest|);
      forall k | 0 <= k < |packets|
        ensures packets[k] == Messages(Picks(After(tq, free, limit, k), free))
        ensures Speaks(After(tq, free, limit, k), free, junk(i + k))
      {
        if k > 0 {
          AfterOneMore(tq, free, limit, k - 1);
          assert packets[k] == rest[k - 1] && i + k == i + 1 + (k - 1);
        }
      }
    }
  }

  lemma {:induction false} PacketsEnd(tq: seq<Item>, free: nat, limit: nat, junk: nat -> bool, n: nat)
    ensures Packets(tq, free, limit, junk, n, n) == [] && AfterPackets(tq, free, limit, junk, n, n) == tq
  {
  }

  // ---------------------------------------------------------------- lemmas about the fields

  lemma {:induction false} RetainSubmap(m: Member, queue: map<Name, Message>)
    requires Submap(queue, m.queue)
    ensures m.(queue := queue) == Retain(m, queue.Keys)
  {
    assert queue == Retain(m, queue.Keys).queue;
  }

  lemma {:induction false} RetainAll(m: Member)
    ensures m == Retain(m, m.queue.Keys)
  {
    RetainSubmap(m, m.queue);
  }

  lemma {:induction false} RetainTwice(m: Member, m1: Member, m2: Member)
    requires m1 == Retain(m, m1.queue.Keys) && m2 == Retain(m1, m2.queue.Keys)
    ensures m2 == Retain(m, m2.queue.Keys)
    ensures m1.queue.Values <= m.queue.Values
  {
    assert m2.queue == Retain(m, m2.queue.Keys).queue;
  }

  lemma {:induction false} ListedSize(nodes: seq<NodeState>, order: seq<NodeState>, nodeMap: map<Name, NodeState>)
    requires Listed(nodes, nodeMap) && Listed(order, nodeMap)
    ensures |nodes| == |order|
  {
  }

  lemma {:induction false} ListedValue(nodes: seq<NodeState>, nodeMap: map<Name, NodeState>, i: nat)
    requires Listed(nodes, nodeMap) && i < |nodes|
    ensures nodes[i].name == Names(nodes)[i] && nodes[i].name in nodeMap &&
            Table(nodeMap)[nodes[i].name] == nodes[i].Value()
  {
  }

  lemma {:induction false} ReorderedListed(nodes: seq<NodeState>, shuffled: seq<NodeState>,
                                           nodeMap: map<Name, NodeState>)
    requires Listed(nodes, nodeMap) && Reordered(nodes, shuffled)
    ensures Listed(shuffled, nodeMap) && |shuffled| == |nodes|
  {
    ShuffleKeeps(Names(nodes), Names(shuffled));
    forall n | n in nodeMap ensures nodeMap[n] in shuffled {
      var k :| 0 <= k < |nodes| && nodes[k] == nodeMap[n];
      assert Names(nodes)[k] in Names(shuffled);
      var j :| 0 <= j < |shuffled| && Names(shuffled)[j] == n;
      assert shuffled[j] in nodes;
    }
  }

  lemma {:induction false} EntriesDistinct(nodes: seq<NodeState>, nodeMap: map<Name, NodeState>,
                                           entries: seq<PushState>)
    requires Listed(nodes, nodeMap) && |entries| == |nodes|
    requires forall k :: 0 <= k < |nodes| ==> entries[k].name == nodes[k].name
    ensures forall i, j :: 0 <= i < j < |entries| ==> entries[i].name != entries[j].name
  {
    assert forall k :: 0 <= k < |nodes| ==> Names(nodes)[k] == entries[k].name;
  }

  lemma {:induction false} EntriesListed(nodes: seq<NodeState>, nodeMap: map<Name, NodeState>, m: Member,
                                         entries: seq<PushState>)
    requires Listed(nodes, nodeMap) && m.table == Table(nodeMap) && |entries| == |nodes|
    requires forall k :: 0 <= k < |nodes| ==> entries[k] == Entry(nodes[k].name, nodes[k].Value())
    ensures (set i | 0 <= i < |entries| :: entries[i]) == Snapshot(m)
    ensures forall i, j :: 0 <= i < j < |entries| ==> entries[i].name != entries[j].name
  {
    EntriesDistinct(nodes, nodeMap, entries);
    hide NoDuplicates;
    forall n | n in nodeMap ensures exists i :: 0 <= i < |entries| && entries[i] == Entry(n, m.table[n]) {
      var k :| 0 <= k < |nodes| && nodes[k] == nodeMap[n];
      assert entries[k] == Entry(n, m.table[n]);
    }
  }

  lemma {:induction false} FewerFree(tq: seq<Item>, idGen: nat, n: nat)
    requires FreeIds(tq, idGen, n) && n >= 1
    ensures FreeIds(tq, idGen, 1) && FreeIds(tq, idGen, n - 1)
  {
  }

  lemma {:induction false} FreeAfterStep(q: QueueState, q': QueueState, name: Name, n: nat)
    requires WellFormed(q.tq, UINT32_MAX) && q.idGen <= UINT32_MAX && FreeIds(q.tq, q.idGen, n + 1)
    requires q' == q || exists fd :: Took(q, q', name, fd)
    ensures FreeIds(q'.tq, q'.idGen, n)
  {
    FewerFree(q.tq, q.idGen, n + 1);
    if q' != q {
      SubmitUsesOne(q.tq, q.idGen, q'.tm[name].b, n);
    }
  }

  /** A broadcast for which nobody waits makes nobody wait, and wakes only who was waiting. */
  lemma {:induction false} NotWaiting(q: QueueState, q': QueueState, name: Name, fd: int)
    requires Indexed(q.tq, q.tm) && (q' == q || Took(q, q', name, -1)) && fd != -1
    ensures fd !in Waiters(q.tm).Values ==>
              fd !in Waiters(q'.tm).Values && multiset(q'.written)[fd] == multiset(q.written)[fd]
  {
    if fd !in Waiters(q.tm).Values {
      assert forall n :: n in q.tm ==> Waiters(q.tm)[n] in Waiters(q.tm).Values;
      if q' != q {
        TookNotifiesWaiters(q, q', name, -1, fd);
      }
    }
  }

  lemma {:induction false} MergeNext(m: Member, entries: seq<PushState>, envs: seq<Env>, i: nat)
    requires i < |entries| <= |envs|
    ensures var before := Merge(m, entries[..i], envs);
            Merge(m, entries[..i + 1], envs) == Handle(before, Replay(before.Self(), entries[i]), envs[i])
  {
    assert entries[..i + 1][..i] == entries[..i];
  }

  lemma {:induction false} MergeNothing(m: Member, entries: seq<PushState>, envs: seq<Env>)
    ensures Merge(m, entries[..0], envs) == m
  {
  }

  lemma {:induction false} RefuteKeepsTimers(m: Member, accused: U32)
    requires m.Self() in m.table
    ensures Protocol.Refute(m, accused).timers == m.timers
  {
  }

  /** Confirming without acceptance changes nothing. */
  lemma {:induction false} ConfirmShapes(m: Member, s: Message)
    requires s.Suspect? && s.node in m.timers
    ensures !Accepts(m.timers[s.node].tally, s.from) ==>
              m.timers[s.node := m.timers[s.node].(tally := Confirmed(m.timers[s.node].tally, s.from))] == m.timers
  {
    assert m.timers[s.node := m.timers[s.node]] == m.timers;
  }

  lemma {:induction false} MaxAtLeastMin(mult: nat, min: int)
    requires mult >= 1 && min >= 0
    ensures mult * min >= min
  {
  }

  lemma {:induction false} TimerKeys(nodeTimers: map<Name, Suspicion>)
    ensures Timers(nodeTimers).Keys == nodeTimers.Keys
    ensures forall n :: n in nodeTimers ==>
              Timers(nodeTimers)[n] == Timer(nodeTimers[n].Count(), nodeTimers[n].f.raised)
  {
  }

  lemma {:induction false} TimerCleared(nodeTimers: map<Name, Suspicion>, name: Name)
    ensures forall base, maxMult: nat :: TimersValid(nodeTimers, base, maxMult) ==>
              TimersValid(nodeTimers - {name}, base, maxMult)
    ensures Timers(nodeTimers - {name}) == Timers(nodeTimers) - {name}
    ensures (nodeTimers - {name}).Values <= nodeTimers.Values
  {
  }

  /** Distinct names have distinct timers, so confirming one leaves the others alone. */
  lemma {:induction false} TimerStored(nodeTimers: map<Name, Suspicion>, name: Name, before: map<Name, Timer>)
    requires name in nodeTimers && before.Keys == nodeTimers.Keys
    requires forall n :: n in nodeTimers && n != name ==>
             Timer(nodeTimers[n].Count(), nodeTimers[n].f.raised) == before[n]
    ensures Timers(nodeTimers) == before[name := Timer(nodeTimers[name].Count(), nodeTimers[name].f.raised)]
  {
  }

  lemma {:induction false} TimerOpened(nodeTimers: map<Name, Suspicion>, name: Name, t: Suspicion, base: int,
                                       maxMult: nat)
    requires TimersValid(nodeTimers, base, maxMult) && t.f.node == name && t.Valid()
    requires t.start == t.f.raised && base <= t.min && t.max == maxMult * t.min
    ensures TimersValid(nodeTimers[name := t], base, maxMult)
    ensures Timers(nodeTimers[name := t]) == Timers(nodeTimers)[name := Timer(t.Count(), t.f.raised)]
  {
  }

  lemma {:induction false} SpreadPlaces(nodes: seq<NodeState>, state: NodeState, rnd: nat)
    ensures Placed(nodes, Spread(nodes, state, rnd), rnd, state.name)
  {
  }

  lemma {:induction false} SpreadNames(nodes: seq<NodeState>, nodeMap: map<Name, NodeState>, state: NodeState, rnd: nat)
    requires NoDuplicates(Names(nodes)) && forall i :: 0 <= i < |nodes| ==> nodes[i].name != state.name
    ensures NoDuplicates(Names(Spread(nodes, state, rnd)))
  {
    var names, names' := Names(nodes), Names(Spread(nodes, state, rnd));
    if nodes != [] {
      var offset := rnd % |nodes|;
      assert names' == (names + [names[offset]])[offset := state.name];
    }
  }

  lemma {:induction false} LearnKeepsListed(nodes: seq<NodeState>, nodeMap: map<Name, NodeState>, state: NodeState,
                                            rnd: nat)
    requires Listed(nodes, nodeMap) && state.name !in nodeMap
    ensures Listed(Spread(nodes, state, rnd), nodeMap[state.name := state])
    ensures |Spread(nodes, state, rnd)| == |nodes| + 1
  {
    var nodes' := Spread(nodes, state, rnd);
    SpreadNames(nodes, nodeMap, state, rnd);
    hide NoDuplicates;
    if nodes != [] {
      var offset := rnd % |nodes|;
      forall n | n in nodeMap ensures nodeMap[n] in nodes' {
        var k :| 0 <= k < |nodes| && nodes[k] == nodeMap[n];
        assert nodes'[if k == offset then |nodes| else k] == nodeMap[n];
      }
      assert nodes'[offset] == state;
    }
  }

  lemma {:induction false} KnownUnderItsName(nodes: seq<NodeState>, nodeMap: map<Name, NodeState>)
    requires Listed(nodes, nodeMap)
    ensures forall n :: n in nodeMap ==> nodeMap[n].name == n
  {
  }

  lemma {:induction false} TableKeys(nodeMap: map<Name, NodeState>)
    ensures Table(nodeMap).Keys == nodeMap.Keys
    ensures forall n :: n in nodeMap ==> Table(nodeMap)[n] == nodeMap[n].Value()
  {
  }

  /** Writing one node state updates one record. */
  lemma {:induction false} TableStored(nodeMap: map<Name, NodeState>, name: Name, before: map<Name, Record>)
    requires name in nodeMap && before.Keys == nodeMap.Keys
    requires forall n :: n in nodeMap && n != name ==> nodeMap[n].Value() == before[n]
    ensures Table(nodeMap) == before[name := nodeMap[name].Value()]
  {
  }

  lemma {:induction false} TableLearned(nodeMap: map<Name, NodeState>, state: NodeState)
    ensures Table(nodeMap[state.name := state]) == Table(nodeMap)[state.name := state.Value()]
  {
  }

  // ---------------------------------------------------------------- the member

  class Memberlist {
    const cfg: Config
    const timing: Timing
    const leaveFd: int
    const queue: BroadcastQueue
    var nodes: seq<NodeState>
    var nodeMap: map<Name, NodeState>
    var nodeTimers: map<Name, Suspicion>
    var numNodes: nat
    var incarnation: U32
    var leave: bool
    var probeIndex: nat
    ghost var submissions: nat
    ghost var Repr: set<object>

    ghost predicate Valid()
      reads this, Repr
    {
      && this in Repr && queue in Repr && nodeMap.Values <= Repr && nodeTimers.Values <= Repr
      && queue.Valid() && timing.Valid()
      && Listed(nodes, nodeMap) && numNodes == |nodes|
      && TimersValid(nodeTimers, cfg.suspicionMult * timing.probeInterval, timing.maxTimeoutMult)
    }

    /** The member as a value. */
    ghost function View(): Member
      requires Valid()
      reads this, Repr
    {
      Member(cfg, Table(nodeMap), Timers(nodeTimers), incarnation, leave, queue.Contents(), submissions)
    }

    constructor (cfg: Config, timing: Timing, retransmitMult: nat, leaveFd: int)
      requires timing.Valid()
      ensures Valid() && fresh(Repr)
      ensures View() == Member(cfg, map[], map[], 0, false, map[], 0)
    {
      this.cfg, this.timing, this.leaveFd := cfg, timing, leaveFd;
      var q := new BroadcastQueue(retransmitMult);
      queue := q;
      nodes, nodeMap, nodeTimers, numNodes := [], map[], map[], 0;
      incarnation, leave, probeIndex, submissions := 0, false, 0, 0;
      Repr := {this, q};
    }

    /** Where `probe` goes on. */
    ghost function Schedule(): (seq<NodeState>, nat)
      reads this
    {
      (nodes, probeIndex)
    }

    /** None of the next `n` ids is in use by a queued broadcast; certain unless the id generator has wrapped. */
    ghost predicate CanSubmit(n: nat)
      reads queue
    {
      FreeIds(queue.tq, queue.idGen, n)
    }

    lemma BlankCanSubmit()
      requires Valid() && View().queue == map[]
      ensures CanSubmit(1)
    {
      assert forall x :: x in queue.tq ==> x.b.name in queue.Contents();
    }

    lemma QueueIndexed()
      requires Valid()
      ensures Indexed(queue.tq, queue.tm)
    {
    }

    lemma QueueSorted()
      requires Valid()
      ensures WellFormed(queue.tq, UINT32_MAX) && queue.idGen <= UINT32_MAX
    {
    }

    /** The fields, seen through `View`. */
    lemma ViewMatches()
      requires Valid()
      ensures this in Repr
      ensures View().cfg == cfg && View().counter == incarnation && View().leaving == leave
      ensures View().table.Keys == nodeMap.Keys && View().timers.Keys == nodeTimers.Keys
    {
    }

    lemma ViewSize()
      requires Valid()
      ensures |View().table| == numNodes
    {
      assert View().table.Keys == nodeMap.Keys;
      assert |View().table| == |View().table.Keys|;
      assert |nodeMap| == |nodeMap.Keys|;
    }

    // ------------------------------------------------------------ in-place updates

    method Lookup(name: Name) returns (r: Record)
      requires Valid() && name in View().table
      ensures r == View().table[name]
    {
      r := nodeMap[name].Value();
    }

    /** Overwrites the fields of one node state. */
    method Store(name: Name, r: Record)
      requires Valid() && name in View().table
      modifies Repr
      ensures Valid() && Repr == old(Repr)
      ensures View() == old(View()).(table := old(View()).table[name := r])
      ensures unchanged(queue)
      ensures Schedule() == old(Schedule())
    {
      hide Listed, Consistent, Queued, Table, Timers;
      KnownUnderItsName(nodes, nodeMap);
      TableKeys(nodeMap);
      ghost var before := Table(nodeMap);
      var state := nodeMap[name];
      state.Set(r);
      TableStored(nodeMap, name, before);
    }

    /** Adds a node at a random place of the probe order. */
    method Insert(state: NodeState, rnd: nat)
      requires Valid() && state.name !in View().table
      modifies this
      ensures Valid() && Repr == old(Repr) + {state}
      ensures View() == old(View()).(table := old(View()).table[state.name := state.Value()])
      ensures Placed(old(nodes), nodes, rnd, state.name) && probeIndex == old(probeIndex)
    {
      hide Listed, Consistent, Queued, Table, Timers, TimersValid, Placed, Spread;
      TableKeys(nodeMap);
      LearnKeepsListed(nodes, nodeMap, state, rnd);
      TableLearned(nodeMap, state);
      SpreadPlaces(nodes, state, rnd);
      nodeMap := nodeMap[state.name := state];
      nodes := Spread(nodes, state, rnd);
      numNodes := numNodes + 1;
      Repr := Repr + {state};
    }

    /** A node nobody has heard of starts dead, with incarnation 0. */
    method Learn(name: Name, addr: Address, junk: int, rnd: nat)
      requires Valid() && name !in View().table
      modifies this
      ensures Valid() && fresh(Repr - old(Repr))
      ensures View() == old(View()).(table := old(View()).table[name := Record(addr, 0, StateDead, junk)])
      ensures Placed(old(nodes), nodes, rnd, name) && probeIndex == old(probeIndex)
    {
      hide Valid, View;
      var state := new NodeState(name, addr, 0, StateDead, junk);
      Insert(state, rnd);
    }

    method ClearTimer(name: Name)
      requires Valid()
      modifies this
      ensures Valid() && Repr == old(Repr)
      ensures View() == old(View()).(timers := old(View()).timers - {name})
      ensures Schedule() == old(Schedule())
    {
      hide Listed, Consistent, Queued, Table, Timers, TimersValid;
      TimerCleared(nodeTimers, name);
      nodeTimers := nodeTimers - {name};
    }

    method Enqueue(msg: Message, notifyFd: int)
      requires Valid() && CanSubmit(1)
      modifies Repr
      ensures Valid() && Repr == old(Repr)
      ensures View() == Submitted(old(View()), msg)
      ensures Took(old(queue.State()), queue.State(), msg.node, notifyFd)
      ensures Schedule() == old(Schedule())
    {
      hide Listed, Consistent, WellFormed, Queued, Waiters, Table, Timers, TimersValid, Took, Unused, FreeIds;
      queue.QueueBroadcast(BroadcastOrder.Broadcast(msg.node, msg, notifyFd));
      submissions := submissions + 1;
    }

    method SetCounter(inc: U32)
      requires Valid()
      modifies this
      ensures Valid() && Repr == old(Repr)
      ensures View() == old(View()).(counter := inc)
      ensures Schedule() == old(Schedule())
    {
      hide Listed, Consistent, Queued;
      incarnation := inc;
    }

    method SetLeave()
      requires Valid()
      modifies this
      ensures Valid() && Repr == old(Repr)
      ensures View() == old(View()).(leaving := true)
      ensures Schedule() == old(Schedule())
    {
      hide Listed, Consistent, Queued;
      leave := true;
    }

    /** A confirmation of the suspicion of `name` finds its timeout over. */
    ghost predicate FiresNow(name: Name, from: Name, now: int, undefined: int)
      requires Valid()
      reads this, Repr
    {
      name in nodeTimers && nodeTimers[name].DueAt(from, now, undefined)
    }

    /** Counts a confirmation; `due` is the callback if the shortened timeout is already over. */
    method ConfirmTimer(name: Name, from: Name, now: int, undefined: int)
      returns (accepted: bool, due: Option<Callback>)
      requires Valid() && name in View().timers
      modifies Repr
      ensures Valid() && Repr == old(Repr)
      ensures var t := old(View()).timers[name];
              && accepted == Accepts(t.tally, from)
              && View() == old(View()).(timers := old(View()).timers[name := t.(tally := Confirmed(t.tally, from))])
              && due == if old(FiresNow(name, from, now, undefined)) then Some(Callback(name, t.raised)) else None
      ensures unchanged(queue)
      ensures Schedule() == old(Schedule())
    {
      hide Listed, Consistent, WellFormed, Queued, Table, Timers, IsLog, Confirmed, Accepts, Timeout;
      TimerKeys(nodeTimers);
      ghost var before := Timers(nodeTimers);
      var t := nodeTimers[name];
      var fire;
      accepted, fire := t.Confirm(from, now, undefined);
      due := if fire then Some(t.f) else None;
      TimerStored(nodeTimers, name, before);
    }

    /** The timer of a suspicion raised at `now`, when `n` nodes were known, has just been started: it waits for `k`
        confirmations, between its minimum and a multiple of it. */
    ghost predicate Starts(t: Suspicion, k: nat, n: nat, now: int)
      reads t
    {
      && IsSuspicionTimeout(t.min, timing.log10, cfg.suspicionMult, n, timing.probeInterval)
      && t.max == timing.maxTimeoutMult * t.min
      && t.k == k && t.n == 0 && t.start == now && t.lg == timing.lg
      && t.running && t.firesAt == now + if k < 1 then t.min else t.max
    }

    method MakeTimer(name: Name, from: Name, k: nat, now: int) returns (t: Suspicion)
      requires timing.Valid()
      ensures fresh(t) && t.Valid() && t.Count() == Opened(from, k) && t.f == Callback(name, now)
      ensures Starts(t, k, numNodes, now) && cfg.suspicionMult * timing.probeInterval <= t.min
    {
      hide SuspicionTimeout, IsSuspicionTimeout, IsLog;
      var min := SuspicionTimeout(timing.log10, cfg.suspicionMult, numNodes, timing.probeInterval);
      var max := timing.maxTimeoutMult * min;
      SuspicionTimeoutMonotone(timing.log10, cfg.suspicionMult, numNodes, numNodes, timing.probeInterval);
      SuspicionTimeoutExact(timing.log10, cfg.suspicionMult, numNodes, timing.probeInterval);
      MaxAtLeastMin(timing.maxTimeoutMult, min);
      t := new Suspicion(from, k, min, max, Callback(name, now), timing.lg, now);
    }

    method AttachTimer(name: Name, t: Suspicion)
      requires Valid() && t.Valid() && t.f.node == name && t.start == t.f.raised
      requires cfg.suspicionMult * timing.probeInterval <= t.min && t.max == timing.maxTimeoutMult * t.min
      modifies this
      ensures Valid() && Repr == old(Repr) + {t} && nodeTimers == old(nodeTimers)[name := t]
      ensures View() == old(View()).(timers := old(View()).timers[name := Timer(t.Count(), t.f.raised)])
      ensures Schedule() == old(Schedule())
    {
      hide Listed, Consistent, Queued, Table, Timers, TimersValid, IsLog;
      TimerOpened(nodeTimers, name, t, cfg.suspicionMult * timing.probeInterval, timing.maxTimeoutMult);
      nodeTimers := nodeTimers[name := t];
      Repr := Repr + {t};
    }

    /** Starts the timer of a fresh suspicion. */
    method OpenTimer(name: Name, from: Name, k: nat, now: int)
      requires Valid()
      modifies this
      ensures Valid() && fresh(Repr - old(Repr))
      ensures View() == old(View()).(timers := old(View()).timers[name := Timer(Opened(from, k), now)])
      ensures name in nodeTimers && Starts(nodeTimers[name], k, |old(View()).table|, now)
      ensures Schedule() == old(Schedule())
    {
      hide View, IsLog, IsSuspicionTimeout;
      ViewSize();
      var t := MakeTimer(name, from, k, now);
      AttachTimer(name, t);
    }

    // ------------------------------------------------------------ handlers

    /** Raises the counter above an accusation that reaches it. */
    method Outbid(accused: U32) returns (inc: U32)
      requires Valid()
      modifies this
      ensures Valid() && Repr == old(Repr)
      ensures inc == RefutingIncarnation(old(View()).counter, accused)
      ensures View() == old(View()).(counter := inc)
      ensures Schedule() == old(Schedule())
    {
      hide Valid, View, Skip, Wrap32;
      ViewMatches();
      inc := incarnation;
      if accused >= inc {
        inc := Skip(inc, Wrap32(accused - inc + 1));
        SetCounter(inc);
      }
    }

    method Refute(accused: U32)
      requires Valid() && cfg.name in View().table && CanSubmit(1)
      modifies Repr
      ensures Valid() && Repr == old(Repr)
      ensures View() == Protocol.Refute(old(View()), accused)
      ensures Took(old(queue.State()), queue.State(), cfg.name, -1)
      ensures Schedule() == old(Schedule())
      ensures View().submitted == old(View()).submitted + 1
    {
      hide Valid, View, RefutingIncarnation, Took;
      ViewMatches();
      var inc := Outbid(accused);
      var me := Lookup(cfg.name);
      Store(cfg.name, me.(inc := inc));
      Enqueue(Alive(inc, cfg.name, me.addr), -1);
    }

    /** Submits a broadcast and overwrites the record of its subject. */
    method GossipAndStore(msg: Message, r: Record, notifyFd: int)
      requires Valid() && msg.node in View().table && CanSubmit(1)
      modifies Repr
      ensures Valid() && Repr == old(Repr)
      ensures View() == Submitted(old(View()), msg).(table := old(View()).table[msg.node := r])
      ensures Took(old(queue.State()), queue.State(), msg.node, notifyFd)
      ensures Schedule() == old(Schedule())
      ensures View().submitted == old(View()).submitted + 1
    {
      hide Valid, View, Took;
      Enqueue(msg, notifyFd);
      Store(msg.node, r);
    }

    method AliveNews(a: Message, r: Record, bootstrap: bool, notifyFd: int, env: Env)
      requires Valid() && a.Alive? && a.node in View().table && r == View().table[a.node] && CanSubmit(1)
      modifies Repr
      ensures Valid() && Repr == old(Repr)
      ensures View() == Protocol.AliveNews(old(View()), a, bootstrap, env)
      ensures if View().submitted == old(View()).submitted then queue.State() == old(queue.State())
              else Took(old(queue.State()), queue.State(), a.node,
                        if !bootstrap && a.node == cfg.name then -1 else notifyFd)
      ensures Schedule() == old(Schedule())
    {
      hide Valid, View, Took, Protocol.Refute, Submitted;
      ViewMatches();
      if !bootstrap && a.node == cfg.name {
        if a.inc == r.inc {
          return;
        }
        Refute(a.inc);
      } else {
        GossipAndStore(a, Record(a.addr, a.inc, StateAlive, if r.status.StateAlive? then r.changed else env.now),
                       notifyFd);
      }
    }

    method AliveKnown(a: Message, bootstrap: bool, notifyFd: int, env: Env)
      requires Valid() && a.Alive? && a.node in View().table && CanSubmit(1)
      modifies Repr
      ensures Valid() && Repr == old(Repr)
      ensures View() == Protocol.AliveKnown(old(View()), a, bootstrap, env)
      ensures if View().submitted == old(View()).submitted then queue.State() == old(queue.State())
              else Took(old(queue.State()), queue.State(), a.node,
                        if !bootstrap && a.node == cfg.name then -1 else notifyFd)
      ensures Schedule() == old(Schedule())
    {
      hide Valid, View, Took, Protocol.AliveNews, Reclaimable;
      ViewMatches();
      var r := Lookup(a.node);
      var moved := a.addr != r.addr;
      if moved && !Reclaimable(cfg, r, env.now) {
        return;
      }
      if a.node == cfg.name {
        if a.inc < r.inc {
          return;
        }
      } else if a.inc <= r.inc && !moved {
        return;
      }
      ClearTimer(a.node);
      AliveNews(a, r, bootstrap, notifyFd, env);
    }

    method AliveNode(a: Message, bootstrap: bool, notifyFd: int, env: Env, rnd: nat)
      requires Valid() && a.Alive? && CanSubmit(1)
      modifies Repr
      ensures Valid() && fresh(Repr - old(Repr))
      ensures View() == Protocol.AliveNode(old(View()), a, bootstrap, env)
      ensures if View().submitted == old(View()).submitted then queue.State() == old(queue.State())
              else Took(old(queue.State()), queue.State(), a.node,
                        if !bootstrap && a.node == cfg.name then -1 else notifyFd)
      ensures probeIndex == old(probeIndex)
      ensures if a.node in old(View()).table || (old(leave) && a.node == cfg.name) then nodes == old(nodes)
              else Placed(old(nodes), nodes, rnd, a.node)
    {
      hide Valid, View, Took, Protocol.AliveKnown;
      ViewMatches();
      if leave && a.node == cfg.name {
        return;
      }
      if a.node !in nodeMap {
        Learn(a.node, a.addr, env.junk, rnd);
      }
      AliveKnown(a, bootstrap, notifyFd, env);
    }

    /** The suspicion is new: gossip it, mark the record and start its timer. */
    method OpenSuspicion(s: Message, env: Env)
      requires Valid() && s.Suspect? && s.node in View().table && CanSubmit(1)
      modifies Repr
      ensures Valid() && fresh(Repr - old(Repr))
      ensures var m := old(View());
              var k := Expected(m.cfg.suspicionMult, |m.table|);
              View() == Submitted(m, s).(
                table := m.table[s.node := m.table[s.node].(inc := s.inc, status := StateSuspect, changed := env.now)],
                timers := m.timers[s.node := Timer(Opened(s.from, k), env.now)])
      ensures Took(old(queue.State()), queue.State(), s.node, -1)
      ensures s.node in nodeTimers
      ensures Starts(nodeTimers[s.node], Expected(cfg.suspicionMult, |old(View()).table|), |old(View()).table|, env.now)
      ensures Schedule() == old(Schedule())
      ensures View().submitted == old(View()).submitted + 1
    {
      hide Valid, View, Expected, Took, Starts;
      ViewMatches();
      ViewSize();
      var r := Lookup(s.node);
      var k := Expected(cfg.suspicionMult, numNodes);
      GossipAndStore(s, r.(inc := s.inc, status := StateSuspect, changed := env.now), -1);
      OpenTimer(s.node, s.from, k, env.now);
    }

    /** A timer is already running: count the confirmation and, if it is news, gossip it again. */
    method ConfirmSuspicion(s: Message, env: Env, undefined: int) returns (due: Option<Callback>)
      requires Valid() && s.Suspect? && s.node in View().timers && CanSubmit(1)
      modifies Repr
      ensures Valid() && Repr == old(Repr)
      ensures var m := old(View());
              var t := m.timers[s.node];
              View() == if Accepts(t.tally, s.from)
                        then Submitted(m, s).(timers := m.timers[s.node := t.(tally := Confirmed(t.tally, s.from))])
                        else m
      ensures due == if old(FiresNow(s.node, s.from, env.now, undefined))
                     then Some(Callback(s.node, old(View()).timers[s.node].raised)) else None
      ensures if View().submitted == old(View()).submitted then queue.State() == old(queue.State())
              else Took(old(queue.State()), queue.State(), s.node, -1)
      ensures Schedule() == old(Schedule())
    {
      hide Valid, View, Accepts, Confirmed, FiresNow, Took;
      ConfirmShapes(View(), s);
      var accepted;
      accepted, due := ConfirmTimer(s.node, s.from, env.now, undefined);
      if accepted {
        Enqueue(s, -1);
      }
    }

    lemma NoTimerNoFire(name: Name, from: Name, now: int, undefined: int)
      requires Valid()
      ensures FiresNow(name, from, now, undefined) ==> name in nodeTimers
    {
    }

    /** The message confirms a running suspicion whose timeout it thereby ends. */
    ghost predicate EndsTimeout(s: Message, now: int, undefined: int)
      requires Valid()
      reads this, Repr
    {
      && s.Suspect? && s.node in View().table && s.inc >= View().table[s.node].inc
      && FiresNow(s.node, s.from, now, undefined)
    }

    /** `due` is the callback of the current suspicion if the message has made it due at once; it runs as a later
        step. */
    method SuspectNode(s: Message, env: Env, undefined: int) returns (due: Option<Callback>)
      requires Valid() && s.Suspect? && CanSubmit(1)
      modifies Repr
      ensures Valid() && fresh(Repr - old(Repr))
      ensures View() == Protocol.SuspectNode(old(View()), s, env)
      ensures due.Some? <==> old(EndsTimeout(s, env.now, undefined))
      ensures due.Some? ==> BelongsTo(due.value, old(View()), s.node)
      ensures if View().submitted == old(View()).submitted then queue.State() == old(queue.State())
              else Took(old(queue.State()), queue.State(), s.node, -1)
      ensures s.node !in old(nodeTimers) && s.node in nodeTimers ==>
                var n := |old(View()).table|;
                Starts(nodeTimers[s.node], Expected(cfg.suspicionMult, n), n, env.now)
      ensures Schedule() == old(Schedule())
    {
      hide Starts, Valid, View, Protocol.Refute, Submitted, Accepts, Confirmed, Expected, FiresNow, Took;
      ViewMatches();
      due := None;
      NoTimerNoFire(s.node, s.from, env.now, undefined);
      if s.node !in nodeMap {
        return;
      }
      var r := Lookup(s.node);
      if s.inc < r.inc {
        return;
      }
      if s.node in nodeTimers {
        due := ConfirmSuspicion(s, env, undefined);
        return;
      }
      if !r.status.StateAlive? {
        return;
      }
      if s.node == cfg.name {
        RefuteKeepsTimers(View(), s.inc);
        Refute(s.inc);
        ViewMatches();
      } else {
        OpenSuspicion(s, env);
      }
    }

    method DeadNode(d: Message, env: Env)
      requires Valid() && d.Dead? && CanSubmit(1)
      modifies Repr
      ensures Valid() && Repr == old(Repr)
      ensures View() == Protocol.DeadNode(old(View()), d, env)
      ensures if View().submitted == old(View()).submitted then queue.State() == old(queue.State())
              else Took(old(queue.State()), queue.State(), d.node,
                        if d.node == cfg.name && old(leave) then leaveFd else -1)
      ensures Schedule() == old(Schedule())
    {
      hide Valid, View, Protocol.Refute, Took;
      ViewMatches();
      if d.node !in nodeMap {
        return;
      }
      var r := Lookup(d.node);
      if d.inc < r.inc {
        return;
      }
      ClearTimer(d.node);
      ViewMatches();
      if r.DeadOrLeft() {
        return;
      }
      if d.node == cfg.name && !leave {
        Refute(d.inc);
        return;
      }
      var status := if d.node == d.from then StateLeft else StateDead;
      GossipAndStore(d, r.(inc := d.inc, status := status, changed := env.now),
                     if d.node == cfg.name then leaveFd else -1);
    }

    /** The first half of a suspicion callback: the Dead message to apply, if the suspicion still stands. */
    method TimerExpired(cb: Callback) returns (d: Option<Message>)
      requires Valid()
      ensures d == if TimedOut(View(), cb.node, cb.raised)
              then Some(Dead(View().table[cb.node].inc, cb.node, cfg.name)) else None
      ensures d.Some? <==> cb.node in View().table && View().table[cb.node].status.StateSuspect? &&
                           View().table[cb.node].changed == cb.raised
    {
      hide Valid, View;
      ViewMatches();
      d := None;
      if cb.node in nodeMap {
        var r := Lookup(cb.node);
        if r.status.StateSuspect? && r.changed == cb.raised {
          d := Some(Dead(r.inc, cb.node, cfg.name));
        }
      }
    }

    /** A message from the network, or from one of our own threads. */
    method Receive(msg: Message, env: Env, rnd: nat, undefined: int) returns (due: Option<Callback>)
      requires Valid() && CanSubmit(1)
      modifies Repr
      ensures Valid() && fresh(Repr - old(Repr))
      ensures View() == Handle(old(View()), msg, env)
      ensures due.Some? <==> old(EndsTimeout(msg, env.now, undefined))
      ensures due.Some? ==> BelongsTo(due.value, old(View()), msg.node)
      ensures queue.State() == old(queue.State()) || exists fd :: Took(old(queue.State()), queue.State(), msg.node, fd)
      ensures probeIndex == old(probeIndex)
      ensures if msg.node in old(View()).table || !msg.Alive? then nodes == old(nodes)
              else nodes == old(nodes) || Placed(old(nodes), nodes, rnd, msg.node)
    {
      hide Took, FiresNow, Valid, View, Protocol.AliveNode, Protocol.SuspectNode, Protocol.DeadNode;
      due := None;
      match msg {
        case Alive(_, _, _) => AliveNode(msg, false, -1, env, rnd);
        case Suspect(_, _, _) => due := SuspectNode(msg, env, undefined);
        case Dead(_, _, _) => DeadNode(msg, env);
      }
    }

    /** `dues` are the callbacks that entries have made due, each with the suspicion it belonged to at its turn. */
    method MergeRemoteState(entries: seq<PushState>, envs: seq<Env>, rnds: seq<nat>, undefined: int)
      returns (dues: seq<Option<Callback>>)
      requires Valid() && |entries| == |envs| == |rnds| && CanSubmit(|entries|)
      modifies Repr
      ensures Valid() && fresh(Repr - old(Repr))
      ensures View() == Merge(old(View()), entries, envs)
      ensures |dues| == |entries|
      ensures forall i :: 0 <= i < |dues| && dues[i].Some? ==>
              BelongsTo(dues[i].value, Merge(old(View()), entries[..i], envs), entries[i].name)
    {
      hide Valid, View, Handle, EndsTimeout, BelongsTo, Merge, Took, FreeIds;
      ghost var start := View();
      dues := [];
      MergeNothing(start, entries, envs);
      var i := 0;
      while i < |entries|
        invariant 0 <= i <= |entries| && Valid() && fresh(Repr - old(Repr))
        invariant View() == Merge(start, entries[..i], envs)
        invariant CanSubmit(|entries| - i)
        invariant |dues| == i
        invariant forall j :: 0 <= j < i && dues[j].Some? ==>
                  BelongsTo(dues[j].value, Merge(start, entries[..j], envs), entries[j].name)
      {
        ViewMatches();
        var msg := Replay(cfg.name, entries[i]);
        FewerFree(queue.tq, queue.idGen, |entries| - i);
        ghost var q := queue.State();
        QueueSorted();
        MergeNext(start, entries, envs, i);
        var due := Receive(msg, envs[i], rnds[i], undefined);
        FreeAfterStep(q, queue.State(), msg.node, |entries| - i - 1);
        dues := dues + [due];
        i := i + 1;
      }
      assert entries[..i] == entries;
    }

    method SetAlive(env: Env, rnd: nat)
      requires Valid() && View() == Member(cfg, map[], map[], 0, false, map[], 0)
      modifies Repr
      ensures Valid() && fresh(Repr - old(Repr))
      ensures View() == Start(cfg, env)
      ensures Took(old(queue.State()), queue.State(), cfg.name, -1) && probeIndex == old(probeIndex)
    {
      hide Valid, View, Protocol.AliveNode;
      BlankCanSubmit();
      ViewMatches();
      var inc := Skip(incarnation, 1);
      SetCounter(inc);
      FirstAnnouncement(cfg, env);
      AliveNode(Alive(inc, cfg.name, cfg.addr), true, -1, env, rnd);
    }

    method Leave(env: Env)
      requires Valid() && CanSubmit(1)
      modifies Repr
      ensures Valid() && Repr == old(Repr)
      ensures View() == Protocol.Leave(old(View()), env)
      ensures Schedule() == old(Schedule())
      ensures if View().submitted == old(View()).submitted then queue.State() == old(queue.State())
              else Took(old(queue.State()), queue.State(), cfg.name, leaveFd)
    {
      hide Valid, View, Protocol.DeadNode;
      ViewMatches();
      if !leave {
        SetLeave();
        ViewMatches();
        if cfg.name in nodeMap {
          var r := Lookup(cfg.name);
          DeadNode(Dead(r.inc, cfg.name, cfg.name), env);
        }
      }
    }

    /** Nobody ever hears of the update: the broadcast is that of the refutation, for which no descriptor waits. */
    method UpdateNode(notifyFd: int, env: Env, rnd: nat)
      requires Valid() && cfg.name in View().table && CanSubmit(1)
      modifies Repr
      ensures Valid() && fresh(Repr - old(Repr))
      ensures View() == Update(old(View()), env)
      ensures if View().submitted == old(View()).submitted then queue.State() == old(queue.State())
              else Took(old(queue.State()), queue.State(), cfg.name, -1)
      ensures notifyFd != -1 && notifyFd !in old(queue.Waiting()).Values ==>
                && notifyFd !in queue.Waiting().Values
                && multiset(queue.written)[notifyFd] == multiset(old(queue.written))[notifyFd]
      ensures Schedule() == old(Schedule())
    {
      hide Valid, View, Protocol.AliveNode, Skip, Took, Indexed, Waiters;
      QueueIndexed();
      ViewMatches();
      var r := Lookup(cfg.name);
      var inc := Skip(incarnation, 1);
      SetCounter(inc);
      AliveNode(Alive(inc, cfg.name, r.addr), false, notifyFd, env, rnd);
      if notifyFd != -1 {
        NotWaiting(old(queue.State()), queue.State(), cfg.name, notifyFd);
      }
    }

    /** `sendLocalState`: one entry for every known node, each once. */
    method LocalState() returns (entries: seq<PushState>)
      requires Valid()
      ensures (set i | 0 <= i < |entries| :: entries[i]) == Snapshot(View())
      ensures forall i, j :: 0 <= i < j < |entries| ==> entries[i].name != entries[j].name
    {
      entries := [];
      for i := 0 to |nodes|
        invariant |entries| == i
        invariant forall k :: 0 <= k < i ==> entries[k] == Entry(nodes[k].name, nodes[k].Value())
      {
        entries := entries + [Entry(nodes[i].name, nodes[i].Value())];
      }
      EntriesListed(nodes, nodeMap, View(), entries);
    }

    /** The loop of `probe`: skips ourselves and the dead, reshuffles at the end of the list, and gives up once as many
        nodes were skipped as there are. */
    method NextTarget(shuffled: seq<NodeState>)
      returns (order: seq<NodeState>, index: nat, target: Option<Name>, numCheck: nat)
      requires Valid() && Listed(shuffled, nodeMap)
      ensures order == nodes || order == shuffled
      ensures |shuffled| == |nodes|
      ensures numCheck <= |nodes| && (target == None <==> numCheck == |nodes|)
      ensures Outcome(Names(order), index, target) ==
              Call(Names(nodes), probeIndex, Eligible(View()), Names(shuffled), 0)
    {
      hide Consistent, Queued, Timers, TimersValid, NoDuplicates;
      ghost var eligible := Eligible(View());
      ghost var outcome := Call(Names(nodes), probeIndex, eligible, Names(shuffled), 0);
      order, index, target, numCheck := nodes, probeIndex, None, 0;
      while numCheck < |order|
        invariant order == nodes || order == shuffled
        invariant 0 <= numCheck <= |order| && target == None
        invariant Call(Names(order), index, eligible, Names(shuffled), numCheck) == outcome
        decreases |order| - numCheck
      {
        if index >= |order| {
          order, index := shuffled, 0;
          numCheck := numCheck + 1;
        } else {
          var node, name := order[index].Value(), order[index].name;
          ListedValue(order, nodeMap, index);
          var skip := name == cfg.name || node.DeadOrLeft();
          assert skip <==> name !in eligible;
          index := index + 1;
          if !skip {
            target := Some(name);
            return;
          }
          numCheck := numCheck + 1;
        }
      }
    }

    /** One call of `probe`; `shuffled` is the order that `random_shuffle` would leave. */
    method Probe(shuffled: seq<NodeState>) returns (target: Option<Name>)
      requires Valid() && Reordered(nodes, shuffled)
      modifies this
      ensures Valid() && View() == old(View()) && Repr == old(Repr)
      ensures Outcome(Names(nodes), probeIndex, target) ==
              Call(Names(old(nodes)), old(probeIndex), Eligible(View()), Names(shuffled), 0)
      ensures target.Some? ==> target.value in View().table && target.value != cfg.name &&
                               View().table[target.value].status in {StateAlive, StateSuspect}
    {
      ReorderedListed(nodes, shuffled, nodeMap);
      assert Listed(nodes, nodeMap);
      hide Valid, View, Listed, Reordered, Eligible, Call;
      var order, index, numCheck;
      order, index, target, numCheck := NextTarget(shuffled);
      EligibleIff(View());
      OnlyEligibleProbed(Names(nodes), probeIndex, Eligible(View()), Names(shuffled), 0);
      SetOrder(order, index);
    }

    method SetOrder(order: seq<NodeState>, index: nat)
      requires Valid() && Listed(order, nodeMap)
      modifies this
      ensures Valid() && View() == old(View()) && Repr == old(Repr)
      ensures nodes == order && probeIndex == index
    {
      hide Listed, Consistent, Queued, Timers, TimersValid, Table;
      ListedSize(nodes, order, nodeMap);
      nodes, probeIndex := order, index;
    }

    /** One packet from the queue; `junk` is what the uninitialised flag of `GetBroadcasts` holds. */
    method FillPacket(udpBufferSize: nat, junk: bool) returns (haveMsg: bool, packet: seq<Message>)
      requires Valid() && udpBufferSize < SIZE_T_SIZE
      modifies Repr
      ensures Valid() && Repr == old(Repr) && numNodes == old(numNodes)
      ensures View() == Retain(old(View()), View().queue.Keys)
      ensures forall msg :: msg in packet ==> msg in old(View()).queue.Values
      ensures haveMsg == Speaks(old(queue.tq), Budget(MESSAGE_DATA_OVERHEAD, udpBufferSize), junk)
      ensures packet == Messages(Picks(old(queue.tq), Budget(MESSAGE_DATA_OVERHEAD, udpBufferSize)))
      ensures udpBufferSize >= 4 ==>
                Total(Picks(old(queue.tq), Budget(MESSAGE_DATA_OVERHEAD, udpBufferSize))) + 4 <= udpBufferSize
      ensures queue.tq == AfterPacket(old(queue.tq), Budget(MESSAGE_DATA_OVERHEAD, udpBufferSize),
                                      RetransmitLimit(queue.retransmitMult, numNodes))
      ensures queue.written == old(queue.written) +
                PickNotices(Picks(old(queue.tq), Budget(MESSAGE_DATA_OVERHEAD, udpBufferSize)),
                            RetransmitLimit(queue.retransmitMult, numNodes))
      ensures Schedule() == old(Schedule())
    {
      hide Listed, Consistent, WellFormed, Queued, Table, Timers, TimersValid, Picks, AfterPacket, PickNotices,
           RetransmitLimit;
      PicksFillTheBudget(queue.tq, Budget(MESSAGE_DATA_OVERHEAD, udpBufferSize));
      haveMsg, packet := queue.GetBroadcasts(MESSAGE_DATA_OVERHEAD, udpBufferSize, numNodes, junk);
      RetainSubmap(old(View()), queue.Contents());
    }

    /** The members one round of gossip talks to: up to `k` of them, drawn at random in at most three draws per known
        member. `draws` and `clock` are what `rand` and the clock return at each draw. */
    method Peers(k: nat, deadTime: int, draws: nat -> nat, clock: nat -> int) returns (peers: seq<Name>)
      requires Valid()
      ensures |peers| <= k && NoDuplicates(peers)
      ensures forall p :: p in peers ==> p in View().table && p != cfg.name && !View().table[p].status.StateLeft?
      ensures forall p :: p in peers && View().table[p].status.StateDead? ==>
                exists i: nat :: i < 3 * |nodes| && clock(i) - View().table[p].changed < deadTime
      ensures forall p :: p in peers ==> Drawn(Names(nodes), p, 3 * |nodes|, draws, clock, View(), deadTime)
      ensures |peers| < k ==>
                forall p :: Drawn(Names(nodes), p, 3 * |nodes|, draws, clock, View(), deadTime) ==> p in peers
    {
      hide Consistent, WellFormed, Queued, Timers, TimersValid;
      peers := [];
      var n, i := |nodes|, 0;
      while i < 3 * n && |peers| < k
        invariant 0 <= i <= 3 * n && |peers| <= k && NoDuplicates(peers)
        invariant forall p :: p in peers <==> Drawn(Names(nodes), p, i, draws, clock, View(), deadTime)
      {
        var idx := draws(i) % n;
        var node, name := nodes[idx].Value(), nodes[idx].name;
        ListedValue(nodes, nodeMap, idx);
        DrawnNext(Names(nodes), i, draws, clock, View(), deadTime);
        if !Excluded(cfg.name, name, node, clock(i), deadTime) && name !in peers {
          peers := peers + [name];
        }
        i := i + 1;
      }
      DrawnGrows(Names(nodes), i, 3 * n, draws, clock, View(), deadTime);
      forall p | p in peers
        ensures p in View().table && p != cfg.name && !View().table[p].status.StateLeft?
        ensures View().table[p].status.StateDead? ==>
                  exists i: nat :: i < 3 * n && clock(i) - View().table[p].changed < deadTime
      {
        DrawnExplicitly(Names(nodes), p, 3 * n, draws, clock, View(), deadTime);
      }
    }

    /** One round of gossip: the packets sent, each with the member it goes to; `junk` says what each uninitialised
        flag holds. */
    method Gossip(k: nat, deadTime: int, draws: nat -> nat, clock: nat -> int, udpBufferSize: nat, junk: nat -> bool)
      returns (peers: seq<Name>, packets: seq<seq<Message>>)
      requires Valid() && udpBufferSize < SIZE_T_SIZE
      modifies Repr
      ensures Valid() && Repr == old(Repr)
      ensures View() == Retain(old(View()), View().queue.Keys)
      ensures |packets| <= |peers| <= k && NoDuplicates(peers)
      ensures forall p :: p in peers ==> old(Drawn(Names(nodes), p, 3 * |nodes|, draws, clock, View(), deadTime))
      ensures forall i, msg :: 0 <= i < |packets| && msg in packets[i] ==> msg in old(View()).queue.Values
      ensures var free := Budget(MESSAGE_DATA_OVERHEAD, udpBufferSize);
              var limit := RetransmitLimit(queue.retransmitMult, old(numNodes));
              && packets == Packets(old(queue.tq), free, limit, junk, 0, |peers|)
              && queue.tq == AfterPackets(old(queue.tq), free, limit, junk, 0, |peers|)
      ensures Schedule() == old(Schedule())
    {
      hide Valid, View, Retain, Packets, AfterPackets, Picks, Total, AfterPacket, RetransmitLimit, Drawn, Messages;
      peers := Peers(k, deadTime, draws, clock);
      packets := [];
      ghost var start, tq := View(), queue.tq;
      ghost var free := Budget(MESSAGE_DATA_OVERHEAD, udpBufferSize);
      ghost var limit := RetransmitLimit(queue.retransmitMult, numNodes);
      RetainAll(start);
      var i := 0;
      while i < |peers|
        invariant Valid() && Repr == old(Repr) && numNodes == old(numNodes) && Schedule() == old(Schedule())
        invariant |packets| == i <= |peers|
        invariant View() == Retain(start, View().queue.Keys)
        invariant forall k, msg :: 0 <= k < i && msg in packets[k] ==> msg in start.queue.Values
        invariant packets + Packets(queue.tq, free, limit, junk, i, |peers|) ==
                  Packets(tq, free, limit, junk, 0, |peers|)
        invariant AfterPackets(queue.tq, free, limit, junk, i, |peers|) ==
                  AfterPackets(tq, free, limit, junk, 0, |peers|)
      {
        ghost var before := View();
        PacketsNext(queue.tq, free, limit, junk, i, |peers|);
        var haveMsg, packet := FillPacket(udpBufferSize, junk(i));
        RetainTwice(start, before, View());
        if !haveMsg {
          return;
        }
        packets := packets + [packet];
        i := i + 1;
      }
      PacketsEnd(queue.tq, free, limit, junk, i);
    }
  }
}
