/** The mutable queue: an ordered set of items and an index by name, kept in step. */
module BroadcastQueues {
  import opened Wire
  import opened BroadcastOrder
  import opened Scaling

  /** The name index holds exactly the items of the ordered set. */
  ghost predicate Indexed(tq: seq<Item>, tm: map<Name, Item>) {
    && (forall x :: x in tq ==> x.b.name in tm && tm[x.b.name] == x)
    && (forall n :: n in tm ==> tm[n] in tq && tm[n].b.name == n)
  }

  /** Both indexes agree, and the ids are distinct and at most `idGen`. */
  ghost predicate Consistent(tq: seq<Item>, tm: map<Name, Item>, idGen: nat) {
    WellFormed(tq, idGen) && idGen <= UINT32_MAX && Indexed(tq, tm)
  }

  ghost function Queued(tm: map<Name, Item>): map<Name, Message> {
    map n | n in tm :: tm[n].b.msg
  }

  ghost function Waiters(tm: map<Name, Item>): map<Name, int> {
    map n | n in tm :: tm[n].b.notifyFd
  }

  ghost predicate Submap<K, V>(a: map<K, V>, b: map<K, V>) {
    forall k :: k in a ==> k in b && a[k] == b[k]
  }

  /** `idGen` after the next submission; 0 is skipped on wrap-around. */
  function NextId(idGen: nat): nat {
    if idGen == UINT32_MAX then 1 else idGen + 1
  }

  /** The queue after `b` was submitted as number `id`. */
  function Submit(tq: seq<Item>, id: nat, b: Broadcast): seq<Item> {
    Insert(Without(tq, b.name), Item(0, ByteSize(b.msg), id, b))
  }

  function Min(a: nat, b: nat): nat {
    if a <= b then a else b
  }

  // ---------------------------------------------------------------- what `Finished` writes

  function Finished(x: Item): seq<int> {
    if x.b.notifyFd != -1 then [x.b.notifyFd] else []
  }

  /** What `Finished` writes for the items erased under `name`, in order. */
  function Notices(s: seq<Item>, name: Name): seq<int> {
    if s == [] then []
    else
      var last := s[|s| - 1];
      Notices(s[..|s| - 1], name) + (if last.b.name == name then Finished(last) else [])
  }

  function AllNotices(s: seq<Item>): seq<int> {
    if s == [] then [] else AllNotices(s[..|s| - 1]) + Finished(s[|s| - 1])
  }

  function ReverseNotices(s: seq<Item>): seq<int> {
    if s == [] then [] else ReverseNotices(s[1..]) + Finished(s[0])
  }

  /** What filling a packet writes: one notice for every pick, and a second one for every pick that was its last. */
  function PickNotices(picked: seq<Item>, limit: nat): seq<int> {
    if picked == [] then []
    else
      var last := picked[|picked| - 1];
      PickNotices(picked[..|picked| - 1], limit) + Finished(last) +
      (if last.transmits + 1 >= limit then Finished(last) else [])
  }

  lemma {:induction false} NoNotices(s: seq<Item>, name: Name)
    requires forall x :: x in s ==> x.b.name != name
    ensures Notices(s, name) == []
  {
    if s != [] {
      assert s[|s| - 1] in s;
      NoNotices(s[..|s| - 1], name);
    }
  }

  lemma {:induction false} NoticesSplit(s: seq<Item>, t: seq<Item>, name: Name)
    ensures Notices(s + t, name) == Notices(s, name) + Notices(t, name)
  {
    if t == [] {
      assert s + t == s;
    } else {
      NoticesSplit(s, t[..|t| - 1], name);
      assert (s + t)[..|s + t| - 1] == s + t[..|t| - 1];
    }
  }

  lemma {:induction false} OthersDiffer(s: seq<Item>, k: nat, idGen: nat)
    requires WellFormed(s, idGen) && k < |s|
    ensures forall i :: 0 <= i < |s| && i != k ==> s[i].b.name != s[k].b.name
  {
    forall i | 0 <= i < |s| && i != k ensures s[i].b.name != s[k].b.name {
      assert if i < k then Less(s[i], s[k]) else Less(s[k], s[i]);
      assert s[i] in s && s[k] in s;
    }
  }

  /** Erasing a picked item notifies for that item alone. */
  lemma {:induction false} NoticesOfOne(s: seq<Item>, k: nat, picked: seq<Item>, limit: nat, idGen: nat)
    requires WellFormed(s, idGen) && k < |s|
    ensures Notices(s, s[k].b.name) == Finished(s[k])
    ensures PickNotices(picked + [s[k]], limit) ==
            PickNotices(picked, limit) + Finished(s[k]) + (if s[k].transmits + 1 >= limit then Finished(s[k]) else [])
  {
    var name := s[k].b.name;
    OthersDiffer(s, k, idGen);
    assert s == s[..k] + [s[k]] + s[k + 1..];
    NoticesSplit(s[..k] + [s[k]], s[k + 1..], name);
    NoticesSplit(s[..k], [s[k]], name);
    NoNotices(s[..k], name);
    NoNotices(s[k + 1..], name);
    assert (picked + [s[k]])[..|picked|] == picked;
  }

  lemma {:induction false} SilentPacket(picked: seq<Item>, limit: nat, fd: int)
    requires forall x :: x in picked ==> x.b.notifyFd != fd
    ensures multiset(PickNotices(picked, limit))[fd] == 0
  {
    if picked != [] {
      assert picked[|picked| - 1] in picked;
      SilentPacket(picked[..|picked| - 1], limit, fd);
    }
  }

  /** The waiter of a picked broadcast is notified once if the broadcast has transmissions left, and twice if this was
      its last one. */
  lemma {:induction false} NotifiedWhenSent(picked: seq<Item>, limit: nat, k: nat)
    requires k < |picked| && picked[k].b.notifyFd != -1
    requires forall i :: 0 <= i < |picked| && i != k ==> picked[i].b.notifyFd != picked[k].b.notifyFd
    ensures multiset(PickNotices(picked, limit))[picked[k].b.notifyFd] ==
            if picked[k].transmits + 1 < limit then 1 else 2
  {
    var front, fd := picked[..|picked| - 1], picked[k].b.notifyFd;
    if k == |front| {
      SilentPacket(front, limit, fd);
    } else {
      NotifiedWhenSent(front, limit, k);
    }
  }

  lemma {:induction false} SilentErase(s: seq<Item>, name: Name, fd: int)
    requires forall x :: x in s ==> x.b.name != name || x.b.notifyFd != fd
    ensures multiset(Notices(s, name))[fd] == 0
  {
    if s != [] {
      assert s[|s| - 1] in s;
      SilentErase(s[..|s| - 1], name, fd);
    }
  }

  lemma {:induction false} SilentDrop(s: seq<Item>, fd: int)
    requires forall x :: x in s ==> x.b.notifyFd != fd
    ensures multiset(ReverseNotices(s))[fd] == 0
  {
    if s != [] {
      SilentDrop(s[1..], fd);
    }
  }

  /** The waiter of a dropped broadcast is notified once. */
  lemma {:induction false} NotifiedWhenDropped(s: seq<Item>, k: nat)
    requires k < |s| && s[k].b.notifyFd != -1
    requires forall i :: 0 <= i < |s| && i != k ==> s[i].b.notifyFd != s[k].b.notifyFd
    ensures multiset(ReverseNotices(s))[s[k].b.notifyFd] == 1
  {
    if k == 0 {
      SilentDrop(s[1..], s[k].b.notifyFd);
    } else {
      NotifiedWhenDropped(s[1..], k - 1);
    }
  }

  // ---------------------------------------------------------------- keeping the two indexes in step

  lemma {:induction false} OneOfItsName(s: seq<Item>, k: nat, idGen: nat)
    requires WellFormed(s, idGen) && k < |s|
    ensures Without(s, s[k].b.name) == s[..k] + s[k + 1..]
  {
    OthersDiffer(s, k, idGen);
    WithoutAt(s, k);
  }

  lemma {:induction false} DropKeeps(tq: seq<Item>, tm: map<Name, Item>, name: Name, idGen: nat)
    requires Consistent(tq, tm, idGen)
    ensures Consistent(Without(tq, name), tm - {name}, idGen)
  {
    WithoutKeeps(tq, name, idGen);
  }

  lemma {:induction false} DropLast(tq: seq<Item>, tm: map<Name, Item>, idGen: nat)
    requires Consistent(tq, tm, idGen) && tq != []
    ensures Consistent(tq[..|tq| - 1], tm - {tq[|tq| - 1].b.name}, idGen)
  {
    OneOfItsName(tq, |tq| - 1, idGen);
    DropKeeps(tq, tm, tq[|tq| - 1].b.name, idGen);
    assert tq[..|tq| - 1] + tq[|tq|..] == tq[..|tq| - 1];
  }

  lemma {:induction false} DeleteAbsent(tq: seq<Item>, tm: map<Name, Item>, name: Name)
    requires Indexed(tq, tm)
    ensures name !in tm ==> Without(tq, name) == tq && tm - {name} == tm && Notices(tq, name) == []
  {
    if name !in tm {
      WithoutAbsent(tq, name);
      NoNotices(tq, name);
    }
  }

  lemma {:induction false} AddKeeps(tq: seq<Item>, tm: map<Name, Item>, x: Item, idGen: nat)
    requires Consistent(tq, tm, idGen) && Apart(x, tq) && x.len > 0 && 1 <= x.id <= idGen
    ensures Consistent(Insert(tq, x), tm[x.b.name := x], idGen)
  {
    InsertKeeps(tq, x, idGen);
  }

  /** Adding an item keeps both indexes in agreement exactly if it shares neither name nor id with another one. */
  lemma {:induction false} AddKeepsIff(tq: seq<Item>, tm: map<Name, Item>, x: Item, idGen: nat)
    requires Consistent(tq, tm, idGen) && x.len > 0 && 1 <= x.id <= idGen
    ensures Consistent(Insert(tq, x), tm[x.b.name := x], idGen) <==> x in tq || Apart(x, tq)
  {
    InsertElements(tq, x);
    if x in tq {
      InsertRefuses(tq, x);
      assert tm[x.b.name := x] == tm;
    } else if Apart(x, tq) {
      AddKeeps(tq, tm, x, idGen);
    } else {
      var y :| y in tq && (y.b.name == x.b.name || y.id == x.id);
      assert y in Insert(tq, x) && y != x;
      assert tm[x.b.name := x][x.b.name] == x;
    }
  }

  /** No item of another subject holds the id. */
  ghost predicate Unused(id: nat, name: Name, tq: seq<Item>) {
    forall x :: x in tq && x.b.name != name ==> x.id != id
  }

  /** Submitting keeps both indexes in agreement exactly if the new id is not in use. */
  lemma {:induction false} SubmitKeepsIff(tq: seq<Item>, tm: map<Name, Item>, b: Broadcast, id: nat, idGen: nat)
    requires Consistent(tq, tm, idGen) && 1 <= id <= idGen
    ensures Consistent(Submit(tq, id, b), tm[b.name := Item(0, ByteSize(b.msg), id, b)], idGen) <==>
            Unused(id, b.name, tq)
  {
    var lb := Item(0, ByteSize(b.msg), id, b);
    DropKeeps(tq, tm, b.name, idGen);
    WithoutElements(tq, b.name);
    assert (tm - {b.name})[b.name := lb] == tm[b.name := lb];
    assert Apart(lb, Without(tq, b.name)) <==> Unused(id, b.name, tq);
    hide Consistent;
    AddKeepsIff(Without(tq, b.name), tm - {b.name}, lb, idGen);
  }

  /** A generator that has not wrapped never hands out an id in use. */
  lemma {:induction false} SubmitKeeps(tq: seq<Item>, b: Broadcast, idGen: nat)
    requires WellFormed(tq, idGen)
    ensures WellFormed(Submit(tq, idGen + 1, b), idGen + 1)
    ensures Unused(idGen + 1, b.name, tq)
  {
    WithoutKeeps(tq, b.name, idGen);
    InsertKeeps(Without(tq, b.name), Item(0, ByteSize(b.msg), idGen + 1, b), idGen + 1);
  }

  lemma {:induction false} QueuedUpdate(tm: map<Name, Item>, x: Item)
    ensures Queued(tm[x.b.name := x]) == Queued(tm)[x.b.name := x.b.msg]
    ensures Waiters(tm[x.b.name := x]) == Waiters(tm)[x.b.name := x.b.notifyFd]
  {
  }

  lemma {:induction false} EmptyPacket(free: nat, limit: nat)
    ensures Messages(Picks([], free)) == [] && AfterPacket([], free, limit) == []
    ensures PickNotices(Picks([], free), limit) == []
  {
  }

  lemma {:induction false} PacketReady(tq: seq<Item>, tm: map<Name, Item>, free: nat, limit: nat, idGen: nat)
    requires Consistent(tq, tm, idGen)
    ensures Insertable(Bumped(Picks(tq, free), limit), Leftover(tq, free), idGen)
  {
    PicksInsertable(tq, free, idGen);
    BumpedInsertable(Picks(tq, free), Leftover(tq, free), limit, idGen);
  }

  /** Every broadcast of the newer indexes was already in the older ones. */
  lemma {:induction false} FewerContents(tq: seq<Item>, tm: map<Name, Item>, tq': seq<Item>, tm': map<Name, Item>)
    requires Indexed(tq, tm) && Indexed(tq', tm')
    requires forall x :: x in tq' ==> exists y :: y in tq && y.b == x.b
    ensures Submap(Queued(tm'), Queued(tm))
  {
  }

  lemma {:induction false} PruneContents(tq: seq<Item>, tm: map<Name, Item>, tq': seq<Item>, tm': map<Name, Item>,
                                         idGen: nat)
    requires Consistent(tq, tm, idGen) && Consistent(tq', tm', idGen) && tq' <= tq
    ensures Submap(Queued(tm'), Queued(tm))
  {
    FewerContents(tq, tm, tq', tm');
  }

  lemma {:induction false} PacketContents(tq: seq<Item>, tm: map<Name, Item>, tq': seq<Item>, tm': map<Name, Item>,
                                          free: nat, limit: nat, idGen: nat)
    requires Consistent(tq, tm, idGen) && Consistent(tq', tm', idGen) && tq' == AfterPacket(tq, free, limit)
    ensures Submap(Queued(tm'), Queued(tm))
    ensures forall m :: m in Messages(Picks(tq, free)) ==> m in Queued(tm).Values
  {
    PacketKeeps(tq, free, limit, idGen);
    PicksPartition(tq, free);
    BumpedElements(Picks(tq, free), limit);
    FewerContents(tq, tm, tq', tm');
    var p := Picks(tq, free);
    forall i | 0 <= i < |p| ensures Messages(p)[i] in Queued(tm).Values {
      assert p[i] in p;
      assert p[i].b.name in Queued(tm);
    }
  }

  // ---------------------------------------------------------------- the loops

  method NotifyAll(s: seq<Item>) returns (notices: seq<int>)
    ensures notices == AllNotices(s)
  {
    notices := [];
    for i := 0 to |s|
      invariant notices == AllNotices(s[..i])
    {
      assert s[..i + 1][..i] == s[..i];
      notices := notices + Finished(s[i]);
    }
    assert s[..|s|] == s;
  }

  method Erase(s: seq<Item>, name: Name) returns (kept: seq<Item>, notices: seq<int>)
    ensures kept == Without(s, name) && notices == Notices(s, name)
  {
    kept, notices := [], [];
    var j := 0;
    while j < |s|
      invariant 0 <= j <= |s|
      invariant kept == Without(s[..j], name) && notices == Notices(s[..j], name)
    {
      assert s[..j + 1][..j] == s[..j];
      if s[j].b.name == name {
        notices := notices + Finished(s[j]);
      } else {
        kept := kept + [s[j]];
      }
      j := j + 1;
    }
    assert s[..j] == s;
  }

  method Delete(tq: seq<Item>, tm: map<Name, Item>, name: Name, ghost idGen: nat)
    returns (tq': seq<Item>, tm': map<Name, Item>, notices: seq<int>)
    requires Consistent(tq, tm, idGen)
    ensures Consistent(tq', tm', idGen)
    ensures tq' == Without(tq, name) && tm' == tm - {name} && notices == Notices(tq, name)
  {
    DropKeeps(tq, tm, name, idGen);
    DeleteAbsent(tq, tm, name);
    tq', tm', notices := tq, tm, [];
    if name in tm {
      tm' := tm - {name};
      tq', notices := Erase(tq, name);
    }
  }

  /** The loop after `finish`: puts back the items that have transmissions left. */
  method Reinsert(tq0: seq<Item>, tm0: map<Name, Item>, xs: seq<Item>, ghost idGen: nat)
    returns (tq: seq<Item>, tm: map<Name, Item>)
    requires Consistent(tq0, tm0, idGen) && Insertable(xs, tq0, idGen)
    ensures Consistent(tq, tm, idGen) && tq == InsertAll(tq0, xs)
  {
    tq, tm := tq0, tm0;
    var i := 0;
    while i < |xs|
      invariant 0 <= i <= |xs|
      invariant Consistent(tq, tm, idGen) && tq == InsertAll(tq0, xs[..i])
      invariant Insertable(xs[i..], tq, idGen)
    {
      var lb := xs[i];
      InsertableNext(tq, xs[i..], idGen);
      assert xs[i..][1..] == xs[i + 1..] && xs[..i + 1][..i] == xs[..i];
      AddKeeps(tq, tm, lb, idGen);
      tm := tm[lb.b.name := lb];
      tq := Insert(tq, lb);
      i := i + 1;
    }
    assert xs[..i] == xs;
  }

  /** The loop of `Prune`: drops from the far end of the order. */
  method KeepLeast(tq0: seq<Item>, tm0: map<Name, Item>, maxRetain: nat, ghost idGen: nat)
    returns (tq: seq<Item>, tm: map<Name, Item>, notices: seq<int>)
    requires Consistent(tq0, tm0, idGen)
    ensures Consistent(tq, tm, idGen) && tq == tq0[..Min(|tq0|, maxRetain)]
    ensures notices == ReverseNotices(tq0[|tq|..])
  {
    tq, tm, notices := tq0, tm0, [];
    hide Consistent;
    var s := |tq|;
    while s > maxRetain && tq != []
      invariant Min(|tq0|, maxRetain) <= s <= |tq0|
      invariant Consistent(tq, tm, idGen) && tq == tq0[..s] && notices == ReverseNotices(tq0[s..])
    {
      DropLast(tq, tm, idGen);
      assert tq0[s - 1..][1..] == tq0[s..] && tq[..s - 1] == tq0[..s - 1];
      var last := tq[|tq| - 1];
      tm := tm - {last.b.name};
      notices := notices + Finished(last);
      tq := tq[..|tq| - 1];
      s := s - 1;
    }
  }

  // ---------------------------------------------------------------- filling a packet

  /** The local variables of `GetBroadcasts` while it fills a packet. */
  datatype Packing = Packing(tq: seq<Item>, tm: map<Name, Item>, bytesUsed: nat, packet: seq<Message>,
                             reinsert: seq<Item>, notices: seq<int>, haveMsg: bool)

  /** The filling loops, seen from outside: what is taken and what is left already agree with the single
      first-fit pass over the whole queue, and no item below the current tier fits any more. */
  ghost predicate Filling(all: seq<Item>, budget: nat, tier: nat, tq: seq<Item>, picked: seq<Item>, free: nat) {
    && Total(picked) + free == budget
    && picked + Picks(tq, free) == Picks(all, budget)
    && Leftover(tq, free) == Leftover(all, budget)
    && (forall x :: x in tq && x.transmits < tier ==> x.len > free)
  }

  ghost predicate Packs(p: Packing, picked: seq<Item>, all: seq<Item>, budget: nat, tier: nat, limit: nat, junk: bool,
                        idGen: nat)
  {
    && Consistent(p.tq, p.tm, idGen)
    && p.bytesUsed <= budget
    && Filling(all, budget, tier, p.tq, picked, budget - p.bytesUsed)
    && p.reinsert == Bumped(picked, limit)
    && p.packet == Messages(picked)
    && p.notices == PickNotices(picked, limit)
    && p.haveMsg == (junk || picked != [])
  }

  lemma {:induction false} AppendAssociates(a: seq<Item>, x: Item, b: seq<Item>)
    ensures a + [x] + b == a + ([x] + b)
  {
  }

  /** The item the two bounds find is the next pick of the single pass. */
  lemma {:induction false} FirstFitTaken(tq: seq<Item>, tier: nat, free: nat, idGen: nat)
    requires WellFormed(tq, idGen) && idGen <= UINT32_MAX
    requires forall x :: x in tq && x.transmits < tier ==> x.len > free
    requires LowerBound(tq, tier, free) < UpperBound(tq, tier)
    ensures var cur := tq[LowerBound(tq, tier, free)];
            && cur.len <= free
            && Picks(tq, free) == [cur] + Picks(Without(tq, cur.b.name), free - cur.len)
            && Leftover(tq, free) == Leftover(Without(tq, cur.b.name), free - cur.len)
  {
    BoundsFindFirstFit(tq, tier, free);
    var low := LowerBound(tq, tier, free);
    PickFirstFit(tq, free, low);
    OneOfItsName(tq, low, idGen);
  }

  lemma {:induction false} PickedOneMore(picked: seq<Item>, cur: Item, limit: nat)
    ensures Total(picked + [cur]) == Total(picked) + cur.len
    ensures Bumped(picked + [cur], limit) ==
            Bumped(picked, limit) + if cur.transmits + 1 >= limit then [] else [cur.(transmits := cur.transmits + 1)]
    ensures Messages(picked + [cur]) == Messages(picked) + [cur.b.msg]
  {
    assert (picked + [cur])[..|picked + [cur]| - 1] == picked;
  }

  lemma {:induction false} ErasedOne(s: seq<Item>, k: nat, idGen: nat)
    requires WellFormed(s, idGen) && k < |s|
    ensures |Without(s, s[k].b.name)| < |s|
    ensures forall x :: x in Without(s, s[k].b.name) ==> x in s
  {
    OneOfItsName(s, k, idGen);
    WithoutElements(s, s[k].b.name);
  }

  lemma {:induction false} FillingPick(all: seq<Item>, budget: nat, tier: nat, tq: seq<Item>, picked: seq<Item>,
                                       free: nat, idGen: nat)
    requires WellFormed(tq, idGen) && idGen <= UINT32_MAX && Filling(all, budget, tier, tq, picked, free)
    requires LowerBound(tq, tier, free) < UpperBound(tq, tier)
    ensures var cur := tq[LowerBound(tq, tier, free)];
            && cur.len <= free
            && Filling(all, budget, tier, Without(tq, cur.b.name), picked + [cur], free - cur.len)
  {
    FirstFitTaken(tq, tier, free, idGen);
    var cur := tq[LowerBound(tq, tier, free)];
    PickedOneMore(picked, cur, 0);
    WithoutElements(tq, cur.b.name);
    AppendAssociates(picked, cur, Picks(Without(tq, cur.b.name), free - cur.len));
  }

  lemma {:induction false} FillingNextTier(all: seq<Item>, budget: nat, tier: nat, tq: seq<Item>, picked: seq<Item>,
                                           free: nat, idGen: nat)
    requires WellFormed(tq, idGen) && idGen <= UINT32_MAX && Filling(all, budget, tier, tq, picked, free)
    ensures LowerBound(tq, tier, free) <= UpperBound(tq, tier)
    ensures LowerBound(tq, tier, free) == UpperBound(tq, tier) ==> Filling(all, budget, tier + 1, tq, picked, free)
  {
    BoundsFindFirstFit(tq, tier, free);
  }

  lemma {:induction false} FillingEnds(all: seq<Item>, budget: nat, tier: nat, tq: seq<Item>, picked: seq<Item>,
                                       free: nat)
    requires Filling(all, budget, tier, tq, picked, free)
    requires forall x :: x in tq ==> x.len > free
    ensures picked == Picks(all, budget) && tq == Leftover(all, budget)
  {
    NothingFits(tq, free);
    assert picked + [] == picked;
  }

  /** Once the bytes used stay within the budget, the inner subtraction is an ordinary one. */
  lemma {:induction false} FreeNeverWraps(room: int, used: nat)
    requires used <= room % SIZE_T_SIZE
    ensures (room - used) % SIZE_T_SIZE == room % SIZE_T_SIZE - used
  {
  }

  lemma {:induction false} TiersBounded(s: seq<Item>)
    requires Sorted(s) && s != []
    ensures forall x :: x in s ==> s[0].transmits <= x.transmits <= s[|s| - 1].transmits
  {
    assert forall k :: 0 < k < |s| ==> Less(s[0], s[k]);
    assert forall k :: 0 <= k < |s| - 1 ==> Less(s[k], s[|s| - 1]);
  }

  lemma {:induction false} PacksNextTier(p: Packing, picked: seq<Item>, all: seq<Item>, room: int, tier: nat,
                                         limit: nat, junk: bool, idGen: nat)
    requires Packs(p, picked, all, room % SIZE_T_SIZE, tier, limit, junk, idGen)
    ensures p.bytesUsed <= room % SIZE_T_SIZE
    ensures (room - p.bytesUsed) % SIZE_T_SIZE == room % SIZE_T_SIZE - p.bytesUsed
    ensures var free := room % SIZE_T_SIZE - p.bytesUsed;
            var low, up := LowerBound(p.tq, tier, free), UpperBound(p.tq, tier);
            low <= up && (low == up ==> Packs(p, picked, all, room % SIZE_T_SIZE, tier + 1, limit, junk, idGen))
  {
    hide Filling, LowerBound, UpperBound, WellFormed, Indexed, Bumped, Messages;
    FreeNeverWraps(room, p.bytesUsed);
    FillingNextTier(all, room % SIZE_T_SIZE, tier, p.tq, picked, room % SIZE_T_SIZE - p.bytesUsed, idGen);
  }

  lemma {:induction false} PacksStart(tq: seq<Item>, tm: map<Name, Item>, budget: nat, limit: nat, junk: bool,
                                      idGen: nat)
    requires Consistent(tq, tm, idGen) && tq != []
    ensures Packs(Packing(tq, tm, 0, [], [], [], junk), [], tq, budget, tq[0].transmits, limit, junk, idGen)
    ensures forall x :: x in tq ==> x.transmits <= tq[|tq| - 1].transmits
  {
    TiersBounded(tq);
    assert [] + Picks(tq, budget) == Picks(tq, budget);
  }

  lemma {:induction false} PacksEnd(p: Packing, picked: seq<Item>, all: seq<Item>, budget: nat, tier: nat, limit: nat,
                                    junk: bool, idGen: nat)
    requires Packs(p, picked, all, budget, tier, limit, junk, idGen)
    requires p.bytesUsed == budget || forall x :: x in p.tq ==> x.transmits < tier
    ensures Consistent(p.tq, p.tm, idGen) && p.tq == Leftover(all, budget)
    ensures p.packet == Messages(Picks(all, budget)) && p.reinsert == Bumped(Picks(all, budget), limit)
    ensures p.notices == PickNotices(Picks(all, budget), limit)
    ensures p.haveMsg == (junk || p.packet != [])
  {
    FillingEnds(all, budget, tier, p.tq, picked, budget - p.bytesUsed);
  }

  /** Moves the first fitting item of the tier from the queue into the packet. */
  method Take(p: Packing, ghost picked: seq<Item>, tier: nat, free: nat, limit: nat,
              ghost all: seq<Item>, ghost budget: nat, ghost junk: bool, ghost idGen: nat)
    returns (p': Packing)
    requires Packs(p, picked, all, budget, tier, limit, junk, idGen) && free == budget - p.bytesUsed
    requires LowerBound(p.tq, tier, free) < UpperBound(p.tq, tier)
    ensures Packs(p', picked + [p.tq[LowerBound(p.tq, tier, free)]], all, budget, tier, limit, junk, idGen)
    ensures |p'.tq| < |p.tq|
    ensures forall x :: x in p'.tq ==> x in p.tq
  {
    hide Filling, WellFormed, Indexed, Bumped, Messages, PickNotices, Notices, Without, Picks, Leftover, Total,
         LowerBound, UpperBound;
    var low := LowerBound(p.tq, tier, free);
    var cur := p.tq[low];
    FillingPick(all, budget, tier, p.tq, picked, free, idGen);
    ErasedOne(p.tq, low, idGen);
    PickedOneMore(picked, cur, limit);
    NoticesOfOne(p.tq, low, picked, limit, idGen);
    var tq, tm, notices := Delete(p.tq, p.tm, cur.b.name, idGen);
    var bumped := cur.(transmits := cur.transmits + 1);
    var done := bumped.transmits >= limit;
    p' := Packing(tq, tm, p.bytesUsed + cur.len, p.packet + [cur.b.msg],
                  p.reinsert + (if done then [] else [bumped]),
                  p.notices + notices + (if done then Finished(bumped) else []), true);
  }

  /** The inner loop: takes fitting items of one tier, longest and newest first. `room` is `limit - overhead`
      before it wraps; `full` reports the jump to the end of the packet. */
  method FillTier(p0: Packing, ghost picked0: seq<Item>, tier: nat, room: int, limit: nat,
                  ghost all: seq<Item>, ghost junk: bool, ghost idGen: nat)
    returns (p: Packing, full: bool, ghost picked: seq<Item>)
    requires Packs(p0, picked0, all, room % SIZE_T_SIZE, tier, limit, junk, idGen)
    ensures Packs(p, picked, all, room % SIZE_T_SIZE, if full then tier else tier + 1, limit, junk, idGen)
    ensures full ==> p.bytesUsed == room % SIZE_T_SIZE
    ensures forall x :: x in p.tq ==> x in p0.tq
  {
    p, picked, full := p0, picked0, false;
    ghost var budget := room % SIZE_T_SIZE;
    hide Packs;
    while true
      invariant Packs(p, picked, all, budget, tier, limit, junk, idGen)
      invariant forall x :: x in p.tq ==> x in p0.tq
      decreases |p.tq|
    {
      var free := (room - p.bytesUsed) % SIZE_T_SIZE;
      PacksNextTier(p, picked, all, room, tier, limit, junk, idGen);
      if free == 0 {
        full := true;
        return;
      }
      if LowerBound(p.tq, tier, free) == UpperBound(p.tq, tier) {
        return;
      }
      ghost var next := picked + [p.tq[LowerBound(p.tq, tier, free)]];
      p := Take(p, picked, tier, free, limit, all, budget, junk, idGen);
      picked := next;
    }
  }

  /** The outer loop over tiers. */
  method Fill(tq: seq<Item>, tm: map<Name, Item>, room: int, limit: nat, junk: bool, ghost idGen: nat)
    returns (p: Packing)
    requires Consistent(tq, tm, idGen) && tq != []
    ensures Consistent(p.tq, p.tm, idGen) && p.tq == Leftover(tq, room % SIZE_T_SIZE)
    ensures p.packet == Messages(Picks(tq, room % SIZE_T_SIZE))
    ensures p.reinsert == Bumped(Picks(tq, room % SIZE_T_SIZE), limit)
    ensures p.notices == PickNotices(Picks(tq, room % SIZE_T_SIZE), limit)
    ensures p.haveMsg == (junk || p.packet != [])
  {
    hide Packs, Consistent, Picks, Leftover, Bumped, Messages, PickNotices;
    p := Packing(tq, tm, 0, [], [], [], junk);
    ghost var budget := room % SIZE_T_SIZE;
    ghost var picked: seq<Item> := [];
    var i: int, maxTr: int := tq[0].transmits, tq[|tq| - 1].transmits;
    PacksStart(tq, tm, budget, limit, junk, idGen);
    var full := false;
    while i <= maxTr && !full
      invariant i >= 0 && Packs(p, picked, tq, budget, i, limit, junk, idGen)
      invariant full ==> p.bytesUsed == budget
      invariant forall x :: x in p.tq ==> x.transmits <= maxTr
      decreases !full, maxTr - i
    {
      p, full, picked := FillTier(p, picked, i, room, limit, tq, junk, idGen);
      if !full {
        i := i + 1;
      }
    }
    PacksEnd(p, picked, tq, budget, i, limit, junk, idGen);
  }

  // ---------------------------------------------------------------- ids to come

  /** In how many submissions an id comes up next; the generator skips 0 when it wraps. */
  function Distance(idGen: nat, id: nat): int {
    if id > idGen then id - idGen else id - idGen + UINT32_MAX
  }

  /** None of the next `n` ids is in use. */
  ghost predicate FreeIds(tq: seq<Item>, idGen: nat, n: nat) {
    n <= UINT32_MAX && forall x :: x in tq ==> Distance(idGen, x.id) > n
  }

  /** A generator that has not wrapped has all the ids up to its end before it. */
  lemma {:induction false} UnwrappedIsFree(tq: seq<Item>, idGen: nat, n: nat)
    requires WellFormed(tq, idGen) && idGen + n <= UINT32_MAX
    ensures FreeIds(tq, idGen, n)
  {
  }

  lemma {:induction false} FreeIsUnused(tq: seq<Item>, idGen: nat, name: Name)
    requires FreeIds(tq, idGen, 1) && idGen <= UINT32_MAX
    ensures Unused(NextId(idGen), name, tq)
  {
  }

  /** One submission uses up one of them. */
  lemma {:induction false} SubmitUsesOne(tq: seq<Item>, idGen: nat, b: Broadcast, n: nat)
    requires Sorted(tq) && FreeIds(tq, idGen, n + 1) && idGen <= UINT32_MAX
    requires forall x :: x in tq ==> x.id <= UINT32_MAX
    ensures FreeIds(Submit(tq, NextId(idGen), b), NextId(idGen), n)
  {
    WithoutElements(tq, b.name);
    WithoutSorted(tq, b.name);
    InsertElements(Without(tq, b.name), Item(0, ByteSize(b.msg), NextId(idGen), b));
  }

  // ---------------------------------------------------------------- the queue

  /** All of the queue's fields. */
  datatype QueueState = QueueState(tq: seq<Item>, tm: map<Name, Item>, idGen: nat, written: seq<int>)

  /** The queue has taken one broadcast about `name` for which `fd` waits, and notified whoever waited for the one it
      replaces. */
  ghost predicate Took(q: QueueState, q': QueueState, name: Name, fd: int) {
    && name in q'.tm && q'.tm[name].b.name == name && q'.tm[name].b.notifyFd == fd
    && q'.idGen == NextId(q.idGen)
    && q'.tq == Submit(q.tq, q'.idGen, q'.tm[name].b) && q'.tm == q.tm[name := q'.tm[name]]
    && q'.written == q.written + Notices(q.tq, name)
  }

  lemma {:induction false} ItTook(q: QueueState, q': QueueState, lb: Item)
    requires lb == Item(0, ByteSize(lb.b.msg), NextId(q.idGen), lb.b)
    requires q' == QueueState(Submit(q.tq, NextId(q.idGen), lb.b), q.tm[lb.b.name := lb], NextId(q.idGen),
                              q.written + Notices(q.tq, lb.b.name))
    ensures Took(q, q', lb.b.name, lb.b.notifyFd)
  {
  }

  /** Taking a broadcast writes only to descriptors that were waiting. */
  lemma {:induction false} TookNotifiesWaiters(q: QueueState, q': QueueState, name: Name, fd: int, other: int)
    requires Took(q, q', name, fd) && Indexed(q.tq, q.tm)
    requires forall n :: n in q.tm ==> q.tm[n].b.notifyFd != other
    ensures multiset(q'.written)[other] == multiset(q.written)[other]
  {
    SilentErase(q.tq, name, other);
  }

  class BroadcastQueue {
    const retransmitMult: nat
    var tq: seq<Item>
    var tm: map<Name, Item>
    var idGen: nat
    var written: seq<int>  // file descriptors `Finished` wrote to, oldest first

    ghost predicate Valid()
      reads this
    {
      Consistent(tq, tm, UINT32_MAX) && idGen <= UINT32_MAX
    }

    /** The id generator has not wrapped past an item still queued. */
    ghost predicate Unwrapped()
      reads this
    {
      WellFormed(tq, idGen)
    }

    /** The message queued for each subject. */
    ghost function Contents(): map<Name, Message>
      reads this
    {
      Queued(tm)
    }

    /** The descriptor waiting for each queued broadcast, -1 if none. */
    ghost function Waiting(): map<Name, int>
      reads this
    {
      Waiters(tm)
    }

    ghost function State(): QueueState
      reads this
    {
      QueueState(tq, tm, idGen, written)
    }

    constructor (mult: nat)
      ensures Valid() && Unwrapped() && tq == [] && idGen == 0 && written == [] && Contents() == map[]
      ensures retransmitMult == mult
    {
      retransmitMult := mult;
      tq, tm, idGen, written := [], map[], 0, [];
    }

    method Clear()
      requires Valid()
      modifies this
      ensures Valid() && Unwrapped() && tq == [] && tm == map[] && idGen == 0
      ensures written == old(written) + AllNotices(old(tq))
    {
      idGen := 0;
      var notices := NotifyAll(tq);
      written := written + notices;
      tq, tm := [], map[];
    }

    /** Erases the item with the name of `lb` from both indexes and notifies whoever waits for it. */
    method DeleteItem(lb: Item)
      requires Valid()
      modifies this
      ensures Valid() && idGen == old(idGen)
      ensures tq == Without(old(tq), lb.b.name) && tm == old(tm) - {lb.b.name}
      ensures written == old(written) + Notices(old(tq), lb.b.name)
    {
      var notices;
      tq, tm, notices := Delete(tq, tm, lb.b.name, UINT32_MAX);
      written := written + notices;
    }

    method AddItem(lb: Item)
      requires Valid() && lb.len > 0 && 1 <= lb.id <= UINT32_MAX
      modifies this
      ensures idGen == old(idGen) && written == old(written)
      ensures tq == Insert(old(tq), lb) && tm == old(tm)[lb.b.name := lb]
      ensures Valid() <==> lb in old(tq) || Apart(lb, old(tq))
    {
      AddKeepsIff(tq, tm, lb, UINT32_MAX);
      hide Consistent, Apart;
      tm := tm[lb.b.name := lb];
      tq := Insert(tq, lb);
    }

    /** Replaces whatever was queued about the same subject by a fresh, never transmitted item. The queue stays
        consistent exactly if no other subject's item holds the new id, which only a wrapped generator can bring
        about. */
    method QueueBroadcast(b: Broadcast)
      requires Valid()
      modifies this
      ensures idGen == NextId(old(idGen))
      ensures tq == Submit(old(tq), idGen, b) && tm == old(tm)[b.name := Item(0, ByteSize(b.msg), idGen, b)]
      ensures Contents() == old(Contents())[b.name := b.msg] && Waiting() == old(Waiting())[b.name := b.notifyFd]
      ensures written == old(written) + Notices(old(tq), b.name)
      ensures Valid() <==> Unused(idGen, b.name, old(tq))
      ensures old(Unwrapped()) && old(idGen) < UINT32_MAX ==> Valid() && Unwrapped()
      ensures old(FreeIds(tq, idGen, 1)) ==> Valid()
      ensures Took(old(State()), State(), b.name, b.notifyFd)
    {
      hide Consistent, WellFormed, Queued, Waiters, Apart, Unused, FreeIds, Took, Notices, Without, Insert, ByteSize;
      if FreeIds(tq, idGen, 1) {
        FreeIsUnused(tq, idGen, b.name);
      }
      ghost var was, tq0, tm0 := idGen, tq, tm;
      idGen := NextId(idGen);
      SubmitKeepsIff(tq, tm, b, idGen, UINT32_MAX);
      if old(Unwrapped()) {
        SubmitKeeps(tq, b, was);
      }
      var lb := Item(0, ByteSize(b.msg), idGen, b);
      DeleteItem(lb);
      AddItem(lb);
      QueuedUpdate(tm0, lb);
      assert tm == tm0[b.name := lb];
      ItTook(old(State()), State(), lb);
    }

    /** Fills one packet. `junk` is what the uninitialised result flag happens to hold. */
    method GetBroadcasts(overhead: nat, limit: nat, numNodes: nat, junk: bool)
      returns (haveMsg: bool, packet: seq<Message>)
      requires Valid() && overhead < SIZE_T_SIZE && limit < SIZE_T_SIZE
      modifies this
      ensures Valid() && idGen == old(idGen) && (old(Unwrapped()) ==> Unwrapped())
      ensures packet == Messages(Picks(old(tq), Budget(overhead, limit)))
      ensures tq == AfterPacket(old(tq), Budget(overhead, limit), RetransmitLimit(retransmitMult, numNodes))
      ensures haveMsg == (old(tq) != [] && (packet != [] || junk)) && (packet != [] ==> haveMsg)
      ensures written == old(written) +
                         PickNotices(Picks(old(tq), Budget(overhead, limit)), RetransmitLimit(retransmitMult, numNodes))
      ensures forall m :: m in packet ==> m in old(Contents()).Values
      ensures Submap(Contents(), old(Contents()))
    {
      packet := [];
      hide Consistent, WellFormed, Queued, Submap, Picks, Leftover, Bumped, InsertAll, Insertable, Messages,
           RetransmitLimit;
      if tq == [] {
        haveMsg := false;
        EmptyPacket(Budget(overhead, limit), RetransmitLimit(retransmitMult, numNodes));
        PacketContents(tq, tm, tq, tm, Budget(overhead, limit), RetransmitLimit(retransmitMult, numNodes), UINT32_MAX);
        return;
      }
      var transmitLimit := RetransmitLimit(retransmitMult, numNodes);
      PacketReady(tq, tm, Budget(overhead, limit), transmitLimit, UINT32_MAX);
      if old(Unwrapped()) {
        PacketKeeps(tq, Budget(overhead, limit), transmitLimit, idGen);
      }
      var p := Fill(tq, tm, limit - overhead, transmitLimit, junk, UINT32_MAX);
      haveMsg, packet := p.haveMsg, p.packet;
      written := written + p.notices;
      tq, tm := Reinsert(p.tq, p.tm, p.reinsert, UINT32_MAX);
      PacketContents(old(tq), old(tm), tq, tm, Budget(overhead, limit), transmitLimit, UINT32_MAX);
    }

    /** Keeps the `maxRetain` least items of the order and drops the rest from both indexes. */
    method Prune(maxRetain: nat)
      requires Valid()
      modifies this
      ensures Valid() && idGen == old(idGen) && (old(Unwrapped()) ==> Unwrapped())
      ensures tq == old(tq)[..Min(|old(tq)|, maxRetain)]
      ensures written == old(written) + ReverseNotices(old(tq)[|tq|..])
      ensures Submap(Contents(), old(Contents()))
    {
      var notices;
      tq, tm, notices := KeepLeast(tq, tm, maxRetain, UINT32_MAX);
      PruneContents(old(tq), old(tm), tq, tm, UINT32_MAX);
      written := written + notices;
    }
  }
}
