/** One member's view of the cluster as a value, and the handlers as functions on it. */
module Protocol {
  import opened Wire
  import opened Suspicions

  datatype Config = Config(name: Name, addr: Address, suspicionMult: nat, reclaimTime: int)

  /** `nodeState`, keyed by its name. */
  datatype Record = Record(addr: Address, inc: U32, status: Status, changed: int) {
    predicate DeadOrLeft() {
      status.StateDead? || status.StateLeft?
    }
  }

  /** A suspicion timer: its confirmations and the timestamp its callback captured. */
  datatype Timer = Timer(tally: Tally, raised: int)

  /** `queue` is the message queued for each subject, `submitted` the number of broadcasts ever submitted. */
  datatype Member = Member(cfg: Config, table: map<Name, Record>, timers: map<Name, Timer>, counter: U32,
                           leaving: bool, queue: map<Name, Message>, submitted: nat)
  {
    function Self(): Name {
      cfg.name
    }
  }

  /** What a step reads from outside: the clock and an uninitialised field. */
  datatype Env = Env(now: int, junk: int)

  function Submitted(m: Member, msg: Message): Member {
    m.(queue := m.queue[msg.node := msg], submitted := m.submitted + 1)
  }

  /** Confirmations a new timer waits for: `SuspicionMult - 2` as `uint8_t`, or none in a small cluster. */
  function Expected(mult: nat, n: nat): nat {
    var k := (mult - 2) % 256;
    if Wrap32(n - 2) < k then 0 else k
  }

  function Skip(counter: U32, offset: U32): U32 {
    Wrap32(counter + offset)
  }

  function RefutingIncarnation(counter: U32, accused: U32): U32 {
    if accused >= counter then Skip(counter, Wrap32(accused - counter + 1)) else counter
  }

  function Refute(m: Member, accused: U32): Member
    requires m.Self() in m.table
  {
    var inc := RefutingIncarnation(m.counter, accused);
    var me := m.table[m.Self()];
    Submitted(m.(counter := inc, table := m.table[m.Self() := me.(inc := inc)]), Alive(inc, m.Self(), me.addr))
  }

  /** A record whose address differs may be taken over when its owner left, or died long enough ago. */
  predicate Reclaimable(cfg: Config, r: Record, now: int) {
    r.status.StateLeft? || (r.status.StateDead? && cfg.reclaimTime > 0 && now - r.changed >= cfg.reclaimTime)
  }

  /** The message is ignored: a conflicting address, or an incarnation that is not news. */
  predicate Outdated(m: Member, a: Message, now: int)
    requires a.Alive? && a.node in m.table
  {
    var r := m.table[a.node];
    var moved := a.addr != r.addr;
    || (moved && !Reclaimable(m.cfg, r, now))
    || (if a.node == m.Self() then a.inc < r.inc else a.inc <= r.inc && !moved)
  }

  function AliveNews(m: Member, a: Message, bootstrap: bool, env: Env): Member
    requires a.Alive? && a.node in m.table
  {
    var r := m.table[a.node];
    if !bootstrap && a.node == m.Self() then
      if a.inc == r.inc then m else Refute(m, a.inc)
    else
      var changed := if r.status.StateAlive? then r.changed else env.now;
      Submitted(m, a).(table := m.table[a.node := Record(a.addr, a.inc, StateAlive, changed)])
  }

  function AliveKnown(m: Member, a: Message, bootstrap: bool, env: Env): Member
    requires a.Alive? && a.node in m.table
  {
    if Outdated(m, a, env.now) then m else AliveNews(m.(timers := m.timers - {a.node}), a, bootstrap, env)
  }

  function AliveNode(m: Member, a: Message, bootstrap: bool, env: Env): Member
    requires a.Alive?
  {
    if m.leaving && a.node == m.Self() then m
    else if a.node in m.table then AliveKnown(m, a, bootstrap, env)
    else AliveKnown(m.(table := m.table[a.node := Record(a.addr, 0, StateDead, env.junk)]), a, bootstrap, env)
  }

  function SuspectNode(m: Member, s: Message, env: Env): Member
    requires s.Suspect?
  {
    if s.node !in m.table || s.inc < m.table[s.node].inc then m
    else if s.node in m.timers then
      var t := m.timers[s.node];
      if Accepts(t.tally, s.from) then
        Submitted(m, s).(timers := m.timers[s.node := t.(tally := Confirmed(t.tally, s.from))])
      else m
    else if !m.table[s.node].status.StateAlive? then m
    else if s.node == m.Self() then Refute(m, s.inc)
    else
      var r := m.table[s.node];
      var k := Expected(m.cfg.suspicionMult, |m.table|);
      Submitted(m, s).(table := m.table[s.node := r.(inc := s.inc, status := StateSuspect, changed := env.now)],
                    timers := m.timers[s.node := Timer(Opened(s.from, k), env.now)])
  }

  function DeadNode(m: Member, d: Message, env: Env): Member
    requires d.Dead?
  {
    if d.node !in m.table || d.inc < m.table[d.node].inc then m
    else
      var r := m.table[d.node];
      var cleared := m.(timers := m.timers - {d.node});
      if r.DeadOrLeft() then cleared
      else if d.node == m.Self() && !m.leaving then Refute(cleared, d.inc)
      else
        var status := if d.node == d.from then StateLeft else StateDead;
        Submitted(cleared, d).(table := m.table[d.node := r.(inc := d.inc, status := status, changed := env.now)])
  }

  /** A message taken from the network or raised locally. */
  function Handle(m: Member, msg: Message, env: Env): Member {
    match msg
    case Alive(_, _, _) => AliveNode(m, msg, false, env)
    case Suspect(_, _, _) => SuspectNode(m, msg, env)
    case Dead(_, _, _) => DeadNode(m, msg, env)
  }

  /** The queue after packet filling or pruning: some entries stay. */
  function Retain(m: Member, keep: set<Name>): Member {
    m.(queue := map n | n in m.queue && n in keep :: m.queue[n])
  }

  /** The messages queued under the given names. */
  function Packet(m: Member, names: set<Name>): set<Message> {
    set n | n in names && n in m.queue :: m.queue[n]
  }

  /** The first half of a suspicion callback: is this still the suspicion that raised it? */
  predicate TimedOut(m: Member, node: Name, raised: int) {
    node in m.table && m.table[node].status.StateSuspect? && m.table[node].changed == raised
  }

  /** `Leave`: only the first call does anything. */
  function Leave(m: Member, env: Env): Member {
    if m.leaving then m
    else if m.Self() !in m.table then m.(leaving := true)
    else DeadNode(m.(leaving := true), Dead(m.table[m.Self()].inc, m.Self(), m.Self()), env)
  }

  /** `UpdateNode`: a fresh incarnation for ourselves, announced like a received message. */
  function Update(m: Member, env: Env): Member
    requires m.Self() in m.table
  {
    var inc := Skip(m.counter, 1);
    AliveNode(m.(counter := inc), Alive(inc, m.Self(), m.table[m.Self()].addr), false, env)
  }

  /** The state right after `setAlive`. */
  function Start(cfg: Config, env: Env): Member {
    var blank := Member(cfg, map[], map[], 0, false, map[], 0);
    AliveNode(blank.(counter := Skip(0, 1)), Alive(Skip(0, 1), cfg.name, cfg.addr), true, env)
  }

  // ---------------------------------------------------------------- push/pull

  function Entry(n: Name, r: Record): PushState {
    PushState(n, r.addr, r.inc, r.status)
  }

  function Snapshot(m: Member): set<PushState> {
    set n | n in m.table :: Entry(n, m.table[n])
  }

  /** A remote entry is replayed as a message; a remote Dead only raises a suspicion of our own. */
  function Replay(self: Name, e: PushState): Message {
    match e.status
    case StateAlive => Alive(e.inc, e.name, e.addr)
    case StateLeft => Dead(e.inc, e.name, e.name)
    case StateDead => Suspect(e.inc, e.name, self)
    case StateSuspect => Suspect(e.inc, e.name, self)
  }

  /** `mergeRemoteState`: entry i is replayed with its own reading of the clock. */
  function Merge(m: Member, entries: seq<PushState>, envs: seq<Env>): Member
    requires |entries| <= |envs|
  {
    if entries == [] then m
    else
      var last := |entries| - 1;
      var before := Merge(m, entries[..last], envs);
      Handle(before, Replay(before.Self(), entries[last]), envs[last])
  }
}
