/** A cluster of members over a network that loses, repeats and reorders what it carries. */
module Cluster {
  import opened Wire
  import opened Protocol
  import opened ProtocolInvariant

  /** A member and the local calls its threads still have to make: the second half of a suspicion callback, or the
      suspicion raised by a failed probe. */
  datatype Node = Node(m: Member, pending: set<Message>)

  /** `net` and `snaps` hold everything ever sent: delivering none, one or several times, in any order, is a choice. */
  datatype State = State(nodes: map<Name, Node>, net: set<Message>, snaps: set<PushState>)

  datatype Step =
    | Deliver(at: Name, msg: Message, env: Env)
    | MergeOne(at: Name, entry: PushState, env: Env)
    | Publish(at: Name)
    | Gossip(at: Name, packet: set<Name>, keep: set<Name>)
    | TimerFires(at: Name, x: Name, raised: int)
    | ProbeFails(at: Name, x: Name)
    | Finish(at: Name, msg: Message, env: Env)
    | LeaveCluster(at: Name, env: Env)
    | Announce(at: Name, env: Env)

  /** What a step needs. The first line holds of every member of a running cluster and the second is the assumption
      that no incarnation counter wraps. */
  predicate Enabled(s: State, step: Step) {
    && step.at in s.nodes && s.nodes[step.at].m.Self() in s.nodes[step.at].m.table
    && s.nodes[step.at].m.counter < UINT32_MAX - 1
    && var node := s.nodes[step.at];
       match step
       case Deliver(_, msg, _) => msg in s.net
       case MergeOne(_, entry, _) => entry in s.snaps
       case TimerFires(_, x, raised) => TimedOut(node.m, x, raised)
       case ProbeFails(at, x) => x != at && x in node.m.table && !node.m.table[x].DeadOrLeft()
       case Finish(_, msg, _) => msg in node.pending
       case _ => true
  }

  predicate Receives(step: Step) {
    step.Deliver? || step.MergeOne? || step.Finish?
  }

  function Input(self: Name, step: Step): Message
    requires Receives(step)
  {
    if step.MergeOne? then Replay(self, step.entry) else step.msg
  }

  /** What the step does to the member that takes it. */
  function Moved(m: Member, step: Step): Member
    requires m.Self() in m.table
  {
    if Receives(step) then Handle(m, Input(m.Self(), step), step.env)
    else if step.Gossip? then Retain(m, step.keep)
    else if step.LeaveCluster? then Leave(m, step.env)
    else if step.Announce? then Update(m, step.env)
    else m
  }

  /** The local call that a timed-out suspicion or a failed probe makes due. */
  function Raised(m: Member, step: Step): Message
    requires (step.TimerFires? || step.ProbeFails?) && step.x in m.table
  {
    if step.TimerFires? then Dead(m.table[step.x].inc, step.x, m.Self())
    else Suspect(m.table[step.x].inc, step.x, m.Self())
  }

  function PendingAfter(node: Node, step: Step): set<Message>
    requires (step.TimerFires? || step.ProbeFails?) ==> step.x in node.m.table
  {
    if step.TimerFires? || step.ProbeFails? then node.pending + {Raised(node.m, step)}
    else if step.Finish? then node.pending - {step.msg}
    else node.pending
  }

  /** A packet of queued messages; probing a suspected member also tells that member about the suspicion. */
  function SentBy(m: Member, step: Step): set<Message>
    requires step.ProbeFails? ==> step.x in m.table
  {
    if step.Gossip? then Packet(m, step.packet)
    else if step.ProbeFails? && !m.table[step.x].status.StateAlive? then {Raised(m, step)}
    else {}
  }

  function PublishedBy(m: Member, step: Step): set<PushState> {
    if step.Publish? then Snapshot(m) else {}
  }

  function Next(s: State, step: Step): State
    requires Enabled(s, step)
  {
    var node := s.nodes[step.at];
    State(s.nodes[step.at := Node(Moved(node.m, step), PendingAfter(node, step))],
          s.net + SentBy(node.m, step), s.snaps + PublishedBy(node.m, step))
  }

  /** Every member has just announced itself to itself and nothing was sent. */
  ghost predicate Init(s: State) {
    && s.net == {} && s.snaps == {}
    && forall a :: a in s.nodes ==>
         exists env, cfg: Config :: s.nodes[a] == Node(Start(cfg, env), {}) && cfg.name == a
  }

  predicate Runs(s: State, steps: seq<Step>)
    decreases |steps|
  {
    steps == [] || (Enabled(s, steps[0]) && Runs(Next(s, steps[0]), steps[1..]))
  }

  function After(s: State, steps: seq<Step>): State
    requires Runs(s, steps)
    decreases |steps|
  {
    if steps == [] then s else After(Next(s, steps[0]), steps[1..])
  }

  // ---------------------------------------------------------------- the cluster invariant

  /** The incarnation a member holds for itself. */
  function Own(s: State, x: Name): U32
    requires x in s.nodes && x in s.nodes[x].m.table
  {
    s.nodes[x].m.table[x].inc
  }

  /** The invariant of a member whose counter never wraps. */
  ghost predicate InOrder(m: Member) {
    Inv(m) && Current(m)
  }

  ghost predicate Local(s: State) {
    forall a :: a in s.nodes ==> s.nodes[a].m.Self() == a && InOrder(s.nodes[a].m)
  }

  /** Nothing says more about a member than the member itself: known member, its address, an incarnation it reached,
      and departure only if it left, with its last incarnation. */
  predicate EntryOk(s: State, e: PushState) {
    && e.name in s.nodes && e.name in s.nodes[e.name].m.table
    && e.addr == s.nodes[e.name].m.cfg.addr
    && e.inc <= Own(s, e.name)
    && (e.status.StateLeft? ==> s.nodes[e.name].m.leaving && e.inc == Own(s, e.name))
  }

  predicate MsgOk(s: State, msg: Message) {
    && msg.node in s.nodes && msg.node in s.nodes[msg.node].m.table
    && msg.inc <= Own(s, msg.node)
    && (msg.Alive? ==> msg.addr == s.nodes[msg.node].m.cfg.addr)
    && (msg.Dead? && msg.from == msg.node ==> s.nodes[msg.node].m.leaving && msg.inc == Own(s, msg.node))
  }

  predicate NodeOk(s: State, node: Node) {
    && (forall x :: x in node.m.table ==> EntryOk(s, Entry(x, node.m.table[x])))
    && (forall x :: x in node.m.queue ==> MsgOk(s, node.m.queue[x]))
    && (forall msg :: msg in node.pending ==> MsgOk(s, msg))
  }

  ghost predicate ClusterInv(s: State) {
    && Local(s)
    && (forall a :: a in s.nodes ==> NodeOk(s, s.nodes[a]))
    && (forall msg :: msg in s.net ==> MsgOk(s, msg))
    && (forall e :: e in s.snaps ==> EntryOk(s, e))
  }

  /** Members only go forward: counters and own incarnations never fall, and leaving freezes the latter. */
  ghost predicate Forward(s: State, s': State) {
    && s.nodes.Keys == s'.nodes.Keys
    && forall x :: x in s.nodes && x in s.nodes[x].m.table ==>
         && x in s'.nodes[x].m.table
         && s'.nodes[x].m.cfg == s.nodes[x].m.cfg
         && Own(s, x) <= Own(s', x) && s.nodes[x].m.counter <= s'.nodes[x].m.counter
         && (s.nodes[x].m.leaving ==> s'.nodes[x].m.leaving && Own(s, x) == Own(s', x))
  }

  lemma {:induction false} MsgOkForward(s: State, s': State, msg: Message)
    requires Forward(s, s') && MsgOk(s, msg)
    ensures MsgOk(s', msg)
  {
  }

  lemma {:induction false} EntryOkForward(s: State, s': State, e: PushState)
    requires Forward(s, s') && EntryOk(s, e)
    ensures EntryOk(s', e)
  {
  }

  lemma {:induction false} NodeOkForward(s: State, s': State, node: Node)
    requires Forward(s, s') && NodeOk(s, node)
    ensures NodeOk(s', node)
  {
    forall x | x in node.m.table ensures EntryOk(s', Entry(x, node.m.table[x])) {
      EntryOkForward(s, s', Entry(x, node.m.table[x]));
    }
    forall x | x in node.m.queue ensures MsgOk(s', node.m.queue[x]) {
      MsgOkForward(s, s', node.m.queue[x]);
    }
    forall msg | msg in node.pending ensures MsgOk(s', msg) {
      MsgOkForward(s, s', msg);
    }
  }

  lemma {:induction false} NodesMove(s: State, s': State, at: Name, node: Node)
    requires forall a :: a in s.nodes ==> NodeOk(s, s.nodes[a])
    requires at in s.nodes && s'.nodes == s.nodes[at := node] && Forward(s, s') && NodeOk(s', node)
    ensures forall a :: a in s'.nodes ==> NodeOk(s', s'.nodes[a])
  {
    hide NodeOk, Forward;
    forall a | a in s'.nodes ensures NodeOk(s', s'.nodes[a]) {
      if a != at {
        NodeOkForward(s, s', s.nodes[a]);
      }
    }
  }

  lemma {:induction false} CarriedMoves(s: State, s': State)
    requires Forward(s, s')
    requires forall msg :: msg in s.net ==> MsgOk(s, msg)
    requires forall e :: e in s.snaps ==> EntryOk(s, e)
    requires forall msg :: msg in s'.net ==> msg in s.net || MsgOk(s', msg)
    requires forall e :: e in s'.snaps ==> e in s.snaps || EntryOk(s', e)
    ensures forall msg :: msg in s'.net ==> MsgOk(s', msg)
    ensures forall e :: e in s'.snaps ==> EntryOk(s', e)
  {
    hide MsgOk, EntryOk, Forward;
    forall msg | msg in s'.net ensures MsgOk(s', msg) {
      if msg in s.net {
        MsgOkForward(s, s', msg);
      }
    }
    forall e | e in s'.snaps ensures EntryOk(s', e) {
      if e in s.snaps {
        EntryOkForward(s, s', e);
      }
    }
  }

  /** A step of one member keeps the cluster invariant if it moves forward and its new node is in order. */
  lemma {:induction false} OneNodeMoves(s: State, s': State, at: Name, node: Node)
    requires ClusterInv(s) && at in s.nodes && s'.nodes == s.nodes[at := node]
    requires node.m.Self() == at && InOrder(node.m)
    requires Forward(s, s') && NodeOk(s', node)
    requires forall msg :: msg in s'.net ==> msg in s.net || MsgOk(s', msg)
    requires forall e :: e in s'.snaps ==> e in s.snaps || EntryOk(s', e)
    ensures ClusterInv(s')
  {
    hide NodeOk, Forward, MsgOk, EntryOk, InOrder;
    NodesMove(s, s', at, node);
    CarriedMoves(s, s');
  }
}
