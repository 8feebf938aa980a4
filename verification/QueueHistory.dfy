/** Laws over whole histories of the queue. */
module QueueHistory {
  import opened Wire
  import opened BroadcastOrder
  import opened BroadcastQueues
  import opened Scaling

  function Max(a: nat, b: nat): nat {
    if a <= b then b else a
  }

  // ---------------------------------------------------------------- retransmit bound

  /** One call on the queue; a packet is given by its budget and the retransmit limit in force. */
  datatype Op = Enqueue(b: Broadcast) | Packet(free: nat, limit: nat) | Keep(maxRetain: nat)

  /** The queue together with every packet sent and every notice written so far, and the largest limit ever in force. */
  datatype History = History(tq: seq<Item>, idGen: nat, packets: seq<seq<Item>>, notices: seq<int>, maxLimit: nat)

  function After(h: History, op: Op): History {
    match op
    case Enqueue(b) =>
      h.(tq := Submit(h.tq, NextId(h.idGen), b), idGen := NextId(h.idGen), notices := h.notices + Notices(h.tq, b.name))
    case Packet(free, limit) =>
      h.(tq := AfterPacket(h.tq, free, limit), packets := h.packets + [Picks(h.tq, free)],
         notices := h.notices + PickNotices(Picks(h.tq, free), limit), maxLimit := Max(h.maxLimit, limit))
    case Keep(maxRetain) =>
      var kept := Min(|h.tq|, maxRetain);
      h.(tq := h.tq[..kept], notices := h.notices + ReverseNotices(h.tq[kept..]))
  }

  function Run(ops: seq<Op>): History {
    if ops == [] then History([], 0, [], [], 0) else After(Run(ops[..|ops| - 1]), ops[|ops| - 1])
  }

  /** How many broadcasts are submitted; only they use up ids. */
  function Enqueues(ops: seq<Op>): nat {
    if ops == [] then 0 else Enqueues(ops[..|ops| - 1]) + if ops[|ops| - 1].Enqueue? then 1 else 0
  }

  ghost predicate Carries(packet: seq<Item>, id: nat) {
    exists x :: x in packet && x.id == id
  }

  /** In how many packets broadcast number `id` went out. */
  ghost function Sent(packets: seq<seq<Item>>, id: nat): nat {
    if packets == [] then 0
    else Sent(packets[..|packets| - 1], id) + if Carries(packets[|packets| - 1], id) then 1 else 0
  }

  ghost predicate Accounted(h: History) {
    && WellFormed(h.tq, h.idGen)
    && (forall x :: x in h.tq ==> x.transmits == Sent(h.packets, x.id))
    && (forall x :: x in h.tq ==> x.transmits == 0 || x.transmits < h.maxLimit)
    && (forall id: nat :: Sent(h.packets, id) <= Max(1, h.maxLimit))
    && (forall id: nat :: id > h.idGen ==> Sent(h.packets, id) == 0)
  }

  lemma {:induction false} EnqueueAccounted(h: History, b: Broadcast)
    requires Accounted(h) && h.idGen < UINT32_MAX
    ensures Accounted(After(h, Enqueue(b)))
  {
    WithoutKeeps(h.tq, b.name, h.idGen);
    InsertKeeps(Without(h.tq, b.name), Item(0, ByteSize(b.msg), h.idGen + 1, b), h.idGen + 1);
  }

  lemma {:induction false} SentOneMore(packets: seq<seq<Item>>, packet: seq<Item>, id: nat)
    ensures Sent(packets + [packet], id) == Sent(packets, id) + if Carries(packet, id) then 1 else 0
  {
    assert (packets + [packet])[..|packets|] == packets;
  }

  lemma {:induction false} PacketAccounted(h: History, free: nat, limit: nat)
    requires Accounted(h)
    ensures Accounted(After(h, Packet(free, limit)))
  {
    var h' := After(h, Packet(free, limit));
    var picks := Picks(h.tq, free);
    PacketKeeps(h.tq, free, limit, h.idGen);
    PicksPartition(h.tq, free);
    BumpedElements(picks, limit);
    forall id: nat ensures Sent(h'.packets, id) == Sent(h.packets, id) + if Carries(picks, id) then 1 else 0 {
      SentOneMore(h.packets, picks, id);
    }
    forall y | y in h'.tq
      ensures y.transmits == Sent(h'.packets, y.id) && (y.transmits == 0 || y.transmits < h'.maxLimit)
    {
      if y in Leftover(h.tq, free) {
        assert !Carries(picks, y.id);
      } else {
        var p :| p in picks && p.transmits + 1 < limit && y == p.(transmits := p.transmits + 1);
        assert Carries(picks, y.id);
      }
    }
    forall id: nat
      ensures Sent(h'.packets, id) <= Max(1, h'.maxLimit) && (id > h'.idGen ==> Sent(h'.packets, id) == 0)
    {
      if Carries(picks, id) {
        var x :| x in picks && x.id == id;
        assert x in h.tq;
      }
    }
  }

  lemma {:induction false} KeepAccounted(h: History, maxRetain: nat)
    requires Accounted(h)
    ensures Accounted(After(h, Keep(maxRetain)))
  {
    assert forall x :: x in h.tq[..Min(|h.tq|, maxRetain)] ==> x in h.tq;
  }

  lemma {:induction false} RunAccounted(ops: seq<Op>)
    requires Enqueues(ops) <= UINT32_MAX
    ensures Accounted(Run(ops)) && Run(ops).idGen == Enqueues(ops)
  {
    if ops != [] {
      var front, last := ops[..|ops| - 1], ops[|ops| - 1];
      RunAccounted(front);
      hide Accounted;
      var h := Run(front);
      match last {
        case Enqueue(b) => EnqueueAccounted(h, b);
        case Packet(free, limit) => PacketAccounted(h, free, limit);
        case Keep(n) => KeepAccounted(h, n);
      }
    }
  }

  lemma {:induction false} MaxLimitBounded(ops: seq<Op>, bound: nat)
    requires forall i :: 0 <= i < |ops| && ops[i].Packet? ==> ops[i].limit <= bound
    ensures Run(ops).maxLimit <= bound
  {
    if ops != [] {
      MaxLimitBounded(ops[..|ops| - 1], bound);
    }
  }

  /** Across every interleaving of submissions, packets and pruning, a broadcast goes out at most
      max(1, L) times, L being the largest limit that was in force; and the transmit count of a queued item is
      exactly the number of packets it was put in. */
  lemma {:induction false} RetransmitBound(ops: seq<Op>, bound: nat, id: nat)
    requires Enqueues(ops) <= UINT32_MAX
    requires forall i :: 0 <= i < |ops| && ops[i].Packet? ==> ops[i].limit <= bound
    ensures Sent(Run(ops).packets, id) <= Max(1, bound)
    ensures forall x :: x in Run(ops).tq ==> x.transmits == Sent(Run(ops).packets, x.id)
  {
    RunAccounted(ops);
    MaxLimitBounded(ops, bound);
  }

  /** With the limit computed from a node count that never exceeds `n`, the bound is the limit for `n` nodes. */
  lemma {:induction false} RetransmitBoundByNodes(ops: seq<Op>, counts: seq<nat>, mult: nat, n: nat, id: nat)
    requires |ops| == |counts| && Enqueues(ops) <= UINT32_MAX
    requires forall i :: 0 <= i < |ops| && ops[i].Packet? ==>
             counts[i] <= n && ops[i].limit == RetransmitLimit(mult, counts[i])
    ensures Sent(Run(ops).packets, id) <= Max(1, RetransmitLimit(mult, n))
  {
    forall i | 0 <= i < |ops| && ops[i].Packet? ensures ops[i].limit <= RetransmitLimit(mult, n) {
      RetransmitLimitMonotone(mult, counts[i], n);
    }
    RetransmitBound(ops, RetransmitLimit(mult, n), id);
  }

  // ---------------------------------------------------------------- notices over whole histories

  ghost predicate Holds(s: seq<Item>, id: nat) {
    exists x :: x in s && x.id == id
  }

  /** Of the queued items, exactly broadcast number `id` has `fd` waiting for it. */
  ghost predicate SoleWaiter(s: seq<Item>, fd: int, id: nat) {
    forall x :: x in s ==> (x.b.notifyFd == fd <==> x.id == id)
  }

  /** One notice for every packet that carried the broadcast, and one more once it is out of the queue. */
  ghost predicate Notified(h: History, fd: int, id: nat) {
    && SoleWaiter(h.tq, fd, id) && id <= h.idGen
    && multiset(h.notices)[fd] == Sent(h.packets, id) + if Holds(h.tq, id) then 0 else 1
  }

  lemma {:induction false} SubmitElements(s: seq<Item>, b: Broadcast, idGen: nat)
    requires WellFormed(s, idGen)
    ensures var x := Item(0, ByteSize(b.msg), idGen + 1, b);
            forall y :: y in Submit(s, idGen + 1, b) <==> y == x || (y in s && y.b.name != b.name)
  {
    WithoutKeeps(s, b.name, idGen);
    InsertKeeps(Without(s, b.name), Item(0, ByteSize(b.msg), idGen + 1, b), idGen + 1);
  }

  /** Broadcast number `id` is queued under `name`. */
  ghost predicate HeldAs(s: seq<Item>, id: nat, name: Name) {
    exists x :: x in s && x.id == id && x.b.name == name
  }

  /** Erasing a name notifies the waiter exactly if its broadcast has that name. */
  lemma {:induction false} EraseNotifies(s: seq<Item>, name: Name, fd: int, id: nat, idGen: nat)
    requires WellFormed(s, idGen) && SoleWaiter(s, fd, id) && fd != -1
    ensures multiset(Notices(s, name))[fd] == if HeldAs(s, id, name) then 1 else 0
  {
    if HeldAs(s, id, name) {
      var k :| 0 <= k < |s| && s[k].id == id && s[k].b.name == name;
      assert s[k] in s;
      NoticesOfOne(s, k, [], 0, idGen);
    } else {
      SilentErase(s, name, fd);
    }
  }

  lemma {:induction false} HeldAfterSubmit(s: seq<Item>, b: Broadcast, fd: int, id: nat, idGen: nat)
    requires WellFormed(s, idGen) && SoleWaiter(s, fd, id) && b.notifyFd != fd && id <= idGen
    ensures SoleWaiter(Submit(s, idGen + 1, b), fd, id)
    ensures Holds(s, id) <==> Holds(Submit(s, idGen + 1, b), id) || HeldAs(s, id, b.name)
    ensures !(Holds(Submit(s, idGen + 1, b), id) && HeldAs(s, id, b.name))
  {
    SubmitElements(s, b, idGen);
    hide Submit;
  }

  lemma {:induction false} EnqueueNotifies(h: History, b: Broadcast, fd: int, id: nat)
    requires WellFormed(h.tq, h.idGen) && Notified(h, fd, id) && fd != -1 && b.notifyFd != fd && h.idGen < UINT32_MAX
    ensures Notified(After(h, Enqueue(b)), fd, id)
  {
    hide WellFormed, Holds, HeldAs, Submit, SoleWaiter, Notices;
    EraseNotifies(h.tq, b.name, fd, id, h.idGen);
    HeldAfterSubmit(h.tq, b, fd, id, h.idGen);
  }

  lemma {:induction false} CarriedNotifies(s: seq<Item>, free: nat, limit: nat, fd: int, id: nat, k: nat, idGen: nat)
    requires WellFormed(s, idGen) && SoleWaiter(s, fd, id) && fd != -1
    requires k < |Picks(s, free)| && Picks(s, free)[k].id == id
    ensures multiset(PickNotices(Picks(s, free), limit))[fd] == if Picks(s, free)[k].transmits + 1 < limit then 1 else 2
  {
    var picks := Picks(s, free);
    PicksInsertable(s, free, idGen);
    ItemsHaveBytes(s, free, idGen);
    NotifiedWhenSent(picks, limit, k);
  }

  lemma {:induction false} PacketNotifies(h: History, free: nat, limit: nat, fd: int, id: nat)
    requires WellFormed(h.tq, h.idGen) && Notified(h, fd, id) && fd != -1
    ensures Notified(After(h, Packet(free, limit)), fd, id)
  {
    var h', picks := After(h, Packet(free, limit)), Picks(h.tq, free);
    PacketKeeps(h.tq, free, limit, h.idGen);
    PicksPartition(h.tq, free);
    BumpedElements(picks, limit);
    SentOneMore(h.packets, picks, id);
    if Carries(picks, id) {
      var k :| 0 <= k < |picks| && picks[k].id == id;
      CarriedNotifies(h.tq, free, limit, fd, id, k, h.idGen);
      assert picks[k] in h.tq;
      assert Holds(h'.tq, id) <==> picks[k].transmits + 1 < limit;
    } else {
      SilentPacket(picks, limit, fd);
      assert Holds(h.tq, id) <==> Holds(h'.tq, id);
    }
  }

  /** Dropping the tail notifies the waiter exactly if its broadcast is in the tail. */
  lemma {:induction false} TailNotifies(s: seq<Item>, kept: nat, fd: int, id: nat, idGen: nat)
    requires WellFormed(s, idGen) && SoleWaiter(s, fd, id) && fd != -1 && kept <= |s|
    ensures multiset(ReverseNotices(s[kept..]))[fd] == if Holds(s[kept..], id) then 1 else 0
  {
    var gone := s[kept..];
    assert forall i :: 0 <= i < |gone| ==> gone[i] == s[kept + i] && gone[i] in s;
    if Holds(gone, id) {
      var k :| 0 <= k < |gone| && gone[k].id == id;
      OthersDiffer(s, kept + k, idGen);
      NotifiedWhenDropped(gone, k);
    } else {
      SilentDrop(gone, fd);
    }
  }

  lemma {:induction false} HeldInOnePart(s: seq<Item>, kept: nat, id: nat, idGen: nat)
    requires WellFormed(s, idGen) && kept <= |s|
    ensures Holds(s, id) <==> Holds(s[..kept], id) || Holds(s[kept..], id)
    ensures !(Holds(s[..kept], id) && Holds(s[kept..], id))
  {
    assert s == s[..kept] + s[kept..];
    forall i, j | 0 <= i < kept <= j < |s| ensures s[i].id != s[j].id {
      assert Less(s[i], s[j]);
      assert s[i] in s && s[j] in s;
    }
  }

  lemma {:induction false} KeepNotifies(h: History, maxRetain: nat, fd: int, id: nat)
    requires WellFormed(h.tq, h.idGen) && Notified(h, fd, id) && fd != -1
    ensures Notified(After(h, Keep(maxRetain)), fd, id)
  {
    var kept := Min(|h.tq|, maxRetain);
    TailNotifies(h.tq, kept, fd, id, h.idGen);
    HeldInOnePart(h.tq, kept, id, h.idGen);
    assert forall x :: x in h.tq[..kept] ==> x in h.tq;
    hide WellFormed, Holds, ReverseNotices;
  }

  /** Nobody submits a broadcast with this descriptor. */
  predicate Unasked(ops: seq<Op>, fd: int) {
    forall i :: 0 <= i < |ops| && ops[i].Enqueue? ==> ops[i].b.notifyFd != fd
  }

  lemma {:induction false} UnaskedIsSilent(ops: seq<Op>, fd: int)
    requires Unasked(ops, fd) && Enqueues(ops) <= UINT32_MAX
    ensures multiset(Run(ops).notices)[fd] == 0
    ensures forall x :: x in Run(ops).tq ==> x.b.notifyFd != fd
  {
    if ops != [] {
      var front, last := ops[..|ops| - 1], ops[|ops| - 1];
      UnaskedIsSilent(front, fd);
      RunAccounted(front);
      var h := Run(front);
      hide Run;
      match last {
        case Enqueue(b) =>
          SilentErase(h.tq, b.name, fd);
          SubmitElements(h.tq, b, h.idGen);
        case Packet(free, limit) =>
          PacketKeeps(h.tq, free, limit, h.idGen);
          PicksPartition(h.tq, free);
          BumpedElements(Picks(h.tq, free), limit);
          SilentPacket(Picks(h.tq, free), limit, fd);
        case Keep(n) =>
          SilentDrop(h.tq[Min(|h.tq|, n)..], fd);
      }
    }
  }

  lemma {:induction false} FreshNotified(h: History, b: Broadcast, fd: int)
    requires Accounted(h) && h.idGen < UINT32_MAX && b.notifyFd == fd
    requires multiset(h.notices)[fd] == 0 && multiset(Notices(h.tq, b.name))[fd] == 0
    requires forall x :: x in h.tq ==> x.b.notifyFd != fd
    ensures Notified(After(h, Enqueue(b)), fd, h.idGen + 1)
  {
    SubmitElements(h.tq, b, h.idGen);
    var x := Item(0, ByteSize(b.msg), h.idGen + 1, b);
    assert x in After(h, Enqueue(b)).tq;
  }

  lemma {:induction false} OpNotifies(h: History, op: Op, fd: int, id: nat)
    requires Accounted(h) && Notified(h, fd, id) && fd != -1
    requires op.Enqueue? ==> op.b.notifyFd != fd && h.idGen < UINT32_MAX
    ensures Notified(After(h, op), fd, id)
  {
    hide Notified, After;
    match op {
      case Enqueue(b) => EnqueueNotifies(h, b, fd, id);
      case Packet(free, limit) => PacketNotifies(h, free, limit, fd, id);
      case Keep(n) => KeepNotifies(h, n, fd, id);
    }
  }

  /** Operation `k` submits the one broadcast that `fd` waits for. */
  predicate AsksOnce(ops: seq<Op>, k: nat, fd: int) {
    && k < |ops| && ops[k].Enqueue? && ops[k].b.notifyFd == fd != -1
    && forall i :: 0 <= i < |ops| && i != k && ops[i].Enqueue? ==> ops[i].b.notifyFd != fd
  }

  lemma {:induction false} JustAsked(ops: seq<Op>, fd: int)
    requires ops != [] && AsksOnce(ops, |ops| - 1, fd) && Enqueues(ops) <= UINT32_MAX
    ensures Notified(Run(ops), fd, Enqueues(ops[..|ops| - 1]) + 1)
  {
    var front, last := ops[..|ops| - 1], ops[|ops| - 1];
    RunAccounted(front);
    UnaskedIsSilent(front, fd);
    SilentErase(Run(front).tq, last.b.name, fd);
    FreshNotified(Run(front), last.b, fd);
    hide Accounted, Notified, After;
  }

  lemma {:induction false} NotifiedThroughout(ops: seq<Op>, k: nat, fd: int)
    requires Enqueues(ops) <= UINT32_MAX && AsksOnce(ops, k, fd)
    ensures Notified(Run(ops), fd, Enqueues(ops[..k]) + 1)
    decreases |ops|
  {
    hide Accounted, After, Notified;
    if k == |ops| - 1 {
      JustAsked(ops, fd);
    } else {
      var front, last := ops[..|ops| - 1], ops[|ops| - 1];
      RunAccounted(front);
      assert front[..k] == ops[..k];
      NotifiedThroughout(front, k, fd);
      OpNotifies(Run(front), last, fd, Enqueues(ops[..k]) + 1);
    }
  }

  /** Over every history: whoever waits for a broadcast is notified once for each packet that carries it, and once more
      when it leaves the queue, be it sent for the last time, replaced or pruned. So the promise of one notice, when
      transmission is finished, is kept exactly as long as no packet carries the broadcast. */
  lemma {:induction false} WaiterNotified(ops: seq<Op>, k: nat, fd: int)
    requires Enqueues(ops) <= UINT32_MAX && AsksOnce(ops, k, fd)
    ensures var h, id := Run(ops), Enqueues(ops[..k]) + 1;
            && multiset(h.notices)[fd] == Sent(h.packets, id) + (if Holds(h.tq, id) then 0 else 1)
            && (multiset(h.notices)[fd] == (if Holds(h.tq, id) then 0 else 1) <==> Sent(h.packets, id) == 0)
  {
    NotifiedThroughout(ops, k, fd);
  }

  // ---------------------------------------------------------------- how often a broadcast goes out

  /** Nothing but packets takes broadcast number `id` out of the queue: it is neither replaced nor pruned. */
  ghost predicate OnlySent(ops: seq<Op>, id: nat) {
    forall i :: 0 <= i < |ops| && !ops[i].Packet? && Holds(Run(ops[..i]).tq, id) ==> Holds(Run(ops[..i + 1]).tq, id)
  }

  lemma {:induction false} OnlySentFront(ops: seq<Op>, id: nat)
    requires ops != [] && OnlySent(ops, id)
    ensures OnlySent(ops[..|ops| - 1], id)
    ensures !ops[|ops| - 1].Packet? && Holds(Run(ops[..|ops| - 1]).tq, id) ==> Holds(Run(ops).tq, id)
  {
    hide Run, Holds;
    var front := ops[..|ops| - 1];
    assert ops[..|ops| - 1 + 1] == ops;
    forall i | 0 <= i < |front| && !front[i].Packet? && Holds(Run(front[..i]).tq, id)
      ensures Holds(Run(front[..i + 1]).tq, id)
    {
      assert front[i] == ops[i] && front[..i] == ops[..i] && front[..i + 1] == ops[..i + 1];
    }
  }

  /** The broadcast is still queued and has transmissions left, or it has had all of them. */
  ghost predicate OnSchedule(h: History, limit: nat, id: nat) {
    if Holds(h.tq, id) then Sent(h.packets, id) < Max(1, limit) else Sent(h.packets, id) == Max(1, limit)
  }

  lemma {:induction false} PacketOnSchedule(h: History, free: nat, limit: nat, id: nat)
    requires Accounted(h) && OnSchedule(h, limit, id)
    ensures OnSchedule(After(h, Packet(free, limit)), limit, id)
  {
    var h', picks := After(h, Packet(free, limit)), Picks(h.tq, free);
    PacketKeeps(h.tq, free, limit, h.idGen);
    PicksPartition(h.tq, free);
    BumpedElements(picks, limit);
    SentOneMore(h.packets, picks, id);
    if Carries(picks, id) {
      var p :| p in picks && p.id == id;
      assert p in h.tq && Holds(h.tq, id);
      assert Holds(h'.tq, id) <==> p.transmits + 1 < limit;
    } else {
      assert Holds(h.tq, id) <==> Holds(h'.tq, id);
    }
  }

  lemma {:induction false} EnqueueOnSchedule(h: History, b: Broadcast, limit: nat, id: nat)
    requires Accounted(h) && h.idGen < UINT32_MAX && id <= h.idGen + 1
    requires id <= h.idGen ==> OnSchedule(h, limit, id)
    requires Holds(h.tq, id) ==> Holds(After(h, Enqueue(b)).tq, id)
    ensures OnSchedule(After(h, Enqueue(b)), limit, id)
  {
    SubmitElements(h.tq, b, h.idGen);
    if id == h.idGen + 1 {
      assert Item(0, ByteSize(b.msg), id, b) in After(h, Enqueue(b)).tq;
    }
  }

  lemma {:induction false} KeepOnSchedule(h: History, maxRetain: nat, limit: nat, id: nat)
    requires OnSchedule(h, limit, id) && (Holds(h.tq, id) ==> Holds(After(h, Keep(maxRetain)).tq, id))
    ensures OnSchedule(After(h, Keep(maxRetain)), limit, id)
  {
    assert forall x :: x in h.tq[..Min(|h.tq|, maxRetain)] ==> x in h.tq;
  }

  lemma {:induction false} StaysOnSchedule(ops: seq<Op>, limit: nat, id: nat)
    requires Enqueues(ops) <= UINT32_MAX && 1 <= id <= Enqueues(ops) && OnlySent(ops, id)
    requires forall i :: 0 <= i < |ops| && ops[i].Packet? ==> ops[i].limit == limit
    ensures OnSchedule(Run(ops), limit, id)
  {
    hide OnSchedule, Accounted, Holds, After, OnlySent;
    var front, last := ops[..|ops| - 1], ops[|ops| - 1];
    OnlySentFront(ops, id);
    RunAccounted(front);
    if id <= Enqueues(front) {
      StaysOnSchedule(front, limit, id);
    }
    match last {
      case Enqueue(b) => EnqueueOnSchedule(Run(front), b, limit, id);
      case Packet(free, _) => PacketOnSchedule(Run(front), free, limit, id);
      case Keep(n) => KeepOnSchedule(Run(front), n, limit, id);
    }
  }

  /** With a fixed number of nodes, of e digits, every broadcast that was neither replaced nor pruned and is no longer
      queued went out exactly max(1, multiplier * e) times; while it is queued, it went out less often. */
  lemma {:induction false} SentExactly(ops: seq<Op>, mult: nat, n: nat, e: nat, id: nat)
    requires Enqueues(ops) <= UINT32_MAX && 1 <= id <= Enqueues(ops) && OnlySent(ops, id)
    requires e >= 1 && Pow10(e - 1) <= n < Pow10(e)
    requires forall i :: 0 <= i < |ops| && ops[i].Packet? ==> ops[i].limit == RetransmitLimit(mult, n)
    ensures if Holds(Run(ops).tq, id) then Sent(Run(ops).packets, id) < Max(1, mult * e)
            else Sent(Run(ops).packets, id) == Max(1, mult * e)
  {
    RetransmitLimitExact(mult, n, e);
    StaysOnSchedule(ops, RetransmitLimit(mult, n), id);
  }

  // ---------------------------------------------------------------- draining

  /** How often the item will still go out under a fixed limit. */
  function Due(x: Item, limit: nat): nat {
    if x.transmits + 1 >= limit then 1 else limit - x.transmits
  }

  function TotalDue(s: seq<Item>, limit: nat): nat {
    if s == [] then 0 else Due(s[0], limit) + TotalDue(s[1..], limit)
  }

  lemma {:induction false} DueOfInsert(s: seq<Item>, x: Item, limit: nat)
    requires Apart(x, s)
    ensures TotalDue(Insert(s, x), limit) == TotalDue(s, limit) + Due(x, limit)
  {
    if s == [] || Less(x, s[0]) {
    } else {
      assert s[0] in s;
      DueOfInsert(s[1..], x, limit);
    }
  }

  lemma {:induction false} DueOfAppend(s: seq<Item>, x: Item, limit: nat)
    ensures TotalDue(s + [x], limit) == TotalDue(s, limit) + Due(x, limit)
  {
    if s == [] {
      assert s + [x] == [x];
    } else {
      DueOfAppend(s[1..], x, limit);
      assert (s + [x])[1..] == s[1..] + [x];
    }
  }

  lemma {:induction false} DueOfInsertAll(s: seq<Item>, xs: seq<Item>, limit: nat, idGen: nat)
    requires WellFormed(s, idGen) && Insertable(xs, s, idGen)
    ensures TotalDue(InsertAll(s, xs), limit) == TotalDue(s, limit) + TotalDue(xs, limit)
  {
    if xs != [] {
      var front, last := xs[..|xs| - 1], xs[|xs| - 1];
      assert Insertable(front, s, idGen) && Apart(last, front) && Apart(last, s);
      assert xs == front + [last];
      InsertAllKeeps(s, front, idGen);
      assert Apart(last, InsertAll(s, front));
      hide WellFormed, Insertable, Apart;
      DueOfInsertAll(s, front, limit, idGen);
      DueOfInsert(InsertAll(s, front), last, limit);
      DueOfAppend(front, last, limit);
    }
  }

  lemma {:induction false} DueOfSplit(s: seq<Item>, free: nat, limit: nat)
    ensures TotalDue(s, limit) == TotalDue(Picks(s, free), limit) + TotalDue(Leftover(s, free), limit)
  {
    if s != [] {
      DueOfSplit(s[1..], if s[0].len <= free then free - s[0].len else free, limit);
    }
  }

  lemma {:induction false} DueOfBumped(picked: seq<Item>, limit: nat)
    ensures TotalDue(Bumped(picked, limit), limit) + |picked| == TotalDue(picked, limit)
  {
    if picked != [] {
      var front, last := picked[..|picked| - 1], picked[|picked| - 1];
      DueOfBumped(front, limit);
      DueOfAppend(front, last, limit);
      assert picked == front + [last];
      if last.transmits + 1 < limit {
        DueOfAppend(Bumped(front, limit), last.(transmits := last.transmits + 1), limit);
      }
    }
  }

  /** Conservation: every message put into a packet pays off exactly one due transmission. */
  lemma {:induction false} PacketPaysDue(s: seq<Item>, free: nat, limit: nat, idGen: nat)
    requires WellFormed(s, idGen)
    ensures TotalDue(AfterPacket(s, free, limit), limit) + |Picks(s, free)| == TotalDue(s, limit)
  {
    PicksInsertable(s, free, idGen);
    BumpedInsertable(Picks(s, free), Leftover(s, free), limit, idGen);
    DueOfInsertAll(Leftover(s, free), Bumped(Picks(s, free), limit), limit, idGen);
    DueOfBumped(Picks(s, free), limit);
    DueOfSplit(s, free, limit);
  }

  function Drain(s: seq<Item>, frees: seq<nat>, limit: nat): seq<Item>
    decreases |frees|
  {
    if frees == [] then s else Drain(AfterPacket(s, frees[0], limit), frees[1..], limit)
  }

  lemma {:induction false} EmptyHasNothingDue(s: seq<Item>, limit: nat)
    ensures |s| <= TotalDue(s, limit) <= |s| * Max(1, limit)
  {
    if s != [] {
      EmptyHasNothingDue(s[1..], limit);
      assert |s| * Max(1, limit) == |s[1..]| * Max(1, limit) + Max(1, limit);
    }
  }

  ghost predicate AllFit(s: seq<Item>, free: nat) {
    forall x :: x in s ==> x.len <= free
  }

  lemma {:induction false} StillFits(s: seq<Item>, free: nat, limit: nat, idGen: nat, other: nat)
    requires WellFormed(s, idGen) && AllFit(s, other)
    ensures AllFit(AfterPacket(s, free, limit), other)
  {
    PacketKeeps(s, free, limit, idGen);
    PicksPartition(s, free);
    BumpedElements(Picks(s, free), limit);
  }

  /** If every message fits an empty packet, as many packets as there are due transmissions empty the queue. */
  lemma {:induction false} QueueDrains(s: seq<Item>, frees: seq<nat>, limit: nat, idGen: nat)
    requires WellFormed(s, idGen) && |frees| >= TotalDue(s, limit)
    requires forall i :: 0 <= i < |frees| ==> AllFit(s, frees[i])
    ensures Drain(s, frees, limit) == []
    decreases |frees|
  {
    EmptyHasNothingDue(s, limit);
    if frees != [] {
      var s' := AfterPacket(s, frees[0], limit);
      PacketPaysDue(s, frees[0], limit, idGen);
      PacketKeeps(s, frees[0], limit, idGen);
      assert s != [] ==> s[0] in s && s[0].len <= frees[0];
      forall i | 0 <= i < |frees[1..]| ensures AllFit(s', frees[1..][i]) {
        StillFits(s, frees[0], limit, idGen, frees[i + 1]);
      }
      hide WellFormed, AllFit, AfterPacket;
      QueueDrains(s', frees[1..], limit, idGen);
    }
  }

  /** Size times max(1, L) packets always suffice. */
  lemma {:induction false} QueueDrainsInTime(s: seq<Item>, frees: seq<nat>, limit: nat, idGen: nat)
    requires WellFormed(s, idGen) && |frees| >= |s| * Max(1, limit)
    requires forall i :: 0 <= i < |frees| ==> AllFit(s, frees[i])
    ensures Drain(s, frees, limit) == []
  {
    EmptyHasNothingDue(s, limit);
    QueueDrains(s, frees, limit, idGen);
  }

  lemma {:induction false} PicksFit(s: seq<Item>, free: nat)
    ensures forall x :: x in Picks(s, free) ==> x.len <= free
  {
    if s != [] {
      PicksFit(s[1..], if s[0].len <= free then free - s[0].len else free);
    }
  }

  /** An item that fits none of the packets stays. */
  lemma {:induction false} MisfitStays(s: seq<Item>, frees: seq<nat>, limit: nat, idGen: nat, x: Item)
    requires WellFormed(s, idGen) && x in s && forall i :: 0 <= i < |frees| ==> frees[i] < x.len
    ensures x in Drain(s, frees, limit)
    decreases |frees|
  {
    if frees != [] {
      PacketKeeps(s, frees[0], limit, idGen);
      PicksPartition(s, frees[0]);
      PicksFit(s, frees[0]);
      MisfitStays(AfterPacket(s, frees[0], limit), frees[1..], limit, idGen, x);
    }
  }

  /** With packets of one size, size times max(1, L) of them empty the queue exactly if every message fits one. */
  lemma {:induction false} QueueDrainsIff(s: seq<Item>, free: nat, n: nat, limit: nat, idGen: nat)
    requires WellFormed(s, idGen) && n >= |s| * Max(1, limit)
    ensures Drain(s, seq(n, i => free), limit) == [] <==> AllFit(s, free)
  {
    var frees := seq(n, i => free);
    if AllFit(s, free) {
      QueueDrainsInTime(s, frees, limit, idGen);
    } else {
      var x :| x in s && x.len > free;
      MisfitStays(s, frees, limit, idGen, x);
    }
  }
}
