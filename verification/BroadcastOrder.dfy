/** The transmit-limited queue as a value: order, insertion, deletion and packet filling. */
module BroadcastOrder {
  import opened Wire

  /** `memberlistBroadcast`; a `notifyFd` of -1 means that nobody waits. */
  datatype Broadcast = Broadcast(name: Name, msg: Message, notifyFd: int)

  /** `limitedBroadcast`. */
  datatype Item = Item(transmits: nat, len: nat, id: nat, b: Broadcast)

  // ---------------------------------------------------------------- order

  /** `x` sorts before the key (transmits, len, id): fewer transmits, then longer, then newer. */
  predicate Before(x: Item, transmits: nat, len: nat, id: nat) {
    if x.transmits != transmits then x.transmits < transmits
    else if x.len != len then x.len > len
    else x.id > id
  }

  predicate Less(x: Item, y: Item) {
    Before(x, y.transmits, y.len, y.id)
  }

  /** A `std::set` is modelled by its elements in iteration order. */
  predicate Sorted(s: seq<Item>) {
    forall i, j :: 0 <= i < j < |s| ==> Less(s[i], s[j])
  }

  /** What the queue keeps: one item per name, ids distinct and at most `idGen`. */
  ghost predicate WellFormed(s: seq<Item>, idGen: nat) {
    && Sorted(s)
    && (forall x :: x in s ==> x.len > 0 && 1 <= x.id <= idGen)
    && (forall x, y :: x in s && y in s && (x.b.name == y.b.name || x.id == y.id) ==> x == y)
  }

  /** No item of `s` shares a name or an id with `x`. */
  ghost predicate Apart(x: Item, s: seq<Item>) {
    forall y :: y in s ==> y.b.name != x.b.name && y.id != x.id
  }

  lemma {:induction false} SortedTail(s: seq<Item>)
    requires Sorted(s) && s != []
    ensures Sorted(s[1..]) && s[0] !in s[1..]
  {
    assert forall k :: 0 < k < |s| ==> Less(s[0], s[k]);
  }

  // ---------------------------------------------------------------- std::set operations

  function Insert(s: seq<Item>, x: Item): seq<Item> {
    if s == [] || Less(x, s[0]) then [x] + s
    else if Less(s[0], x) then [s[0]] + Insert(s[1..], x)
    else s
  }

  lemma {:induction false} InsertElements(s: seq<Item>, x: Item)
    requires Sorted(s)
    ensures forall y :: y in Insert(s, x) ==> y in s || y == x
    ensures forall y :: y in s ==> y in Insert(s, x)
    ensures Apart(x, s) ==> x in Insert(s, x)
  {
    if s == [] || Less(x, s[0]) {
    } else if Less(s[0], x) {
      SortedTail(s);
      InsertElements(s[1..], x);
      assert s == [s[0]] + s[1..];
    } else {
      assert s[0] in s;
    }
  }

  lemma {:induction false} InsertSorted(s: seq<Item>, x: Item)
    requires Sorted(s)
    ensures Sorted(Insert(s, x))
  {
    if s == [] || Less(x, s[0]) {
    } else if Less(s[0], x) {
      SortedTail(s);
      InsertSorted(s[1..], x);
      InsertElements(s[1..], x);
      var r := Insert(s[1..], x);
      forall j | 0 <= j < |r| ensures Less(s[0], r[j]) {
        assert r[j] in r;
        if r[j] in s[1..] {
          var k :| 0 <= k < |s[1..]| && s[1..][k] == r[j];
          assert Less(s[0], s[k + 1]);
        }
      }
    }
  }

  /** `std::set::insert` drops the new item exactly when another one has the same three keys; only a wrapped
      id generator can bring that about. */
  lemma {:induction false} InsertRefuses(s: seq<Item>, x: Item)
    requires Sorted(s)
    ensures Insert(s, x) == s <==> exists y :: y in s && y.transmits == x.transmits && y.len == x.len && y.id == x.id
    ensures Insert(s, x) != s ==> |Insert(s, x)| == |s| + 1
  {
    if s == [] {
    } else if Less(x, s[0]) {
      assert forall k :: 0 < k < |s| ==> Less(s[0], s[k]);
    } else if Less(s[0], x) {
      SortedTail(s);
      InsertRefuses(s[1..], x);
      assert s == [s[0]] + s[1..];
      assert Insert(s, x)[1..] == Insert(s[1..], x);
    } else {
      assert s[0] in s;
    }
  }

  lemma {:induction false} InsertKeeps(s: seq<Item>, x: Item, idGen: nat)
    requires WellFormed(s, idGen) && Apart(x, s) && x.len > 0 && 1 <= x.id <= idGen
    ensures WellFormed(Insert(s, x), idGen)
    ensures forall y :: y in Insert(s, x) <==> y in s || y == x
  {
    InsertElements(s, x);
    InsertSorted(s, x);
  }

  function InsertAll(s: seq<Item>, xs: seq<Item>): seq<Item> {
    if xs == [] then s else Insert(InsertAll(s, xs[..|xs| - 1]), xs[|xs| - 1])
  }

  /** Erase every item called `name`, as the loop of `deleteItem` does. */
  function Without(s: seq<Item>, name: Name): seq<Item> {
    if s == [] then []
    else
      var front := Without(s[..|s| - 1], name);
      if s[|s| - 1].b.name == name then front else front + [s[|s| - 1]]
  }

  lemma {:induction false} WithoutElements(s: seq<Item>, name: Name)
    ensures forall y :: y in Without(s, name) <==> y in s && y.b.name != name
  {
    if s != [] {
      WithoutElements(s[..|s| - 1], name);
      assert s == s[..|s| - 1] + [s[|s| - 1]];
    }
  }

  lemma {:induction false} WithoutSorted(s: seq<Item>, name: Name)
    requires Sorted(s)
    ensures Sorted(Without(s, name))
  {
    if s != [] {
      var front := s[..|s| - 1];
      WithoutSorted(front, name);
      WithoutElements(front, name);
      forall i | 0 <= i < |Without(front, name)| ensures Less(Without(front, name)[i], s[|s| - 1]) {
        assert Without(front, name)[i] in front;
        var k :| 0 <= k < |front| && front[k] == Without(front, name)[i];
        assert Less(s[k], s[|s| - 1]);
      }
    }
  }

  lemma {:induction false} WithoutKeeps(s: seq<Item>, name: Name, idGen: nat)
    requires WellFormed(s, idGen)
    ensures WellFormed(Without(s, name), idGen)
    ensures forall y :: y in Without(s, name) <==> y in s && y.b.name != name
  {
    WithoutElements(s, name);
    WithoutSorted(s, name);
  }

  lemma {:induction false} WithoutAbsent(s: seq<Item>, name: Name)
    requires forall y :: y in s ==> y.b.name != name
    ensures Without(s, name) == s
  {
    if s != [] {
      assert s[|s| - 1] in s;
      WithoutAbsent(s[..|s| - 1], name);
    }
  }

  /** With one item per name, erasing by name removes exactly the item at position `k`. */
  lemma {:induction false} WithoutAt(s: seq<Item>, k: nat)
    requires k < |s|
    requires forall i :: 0 <= i < |s| && i != k ==> s[i].b.name != s[k].b.name
    ensures Without(s, s[k].b.name) == s[..k] + s[k + 1..]
  {
    var front := s[..|s| - 1];
    if k == |s| - 1 {
      WithoutAbsent(front, s[k].b.name);
    } else {
      WithoutAt(front, k);
      assert front[..k] == s[..k] && front[k + 1..] + [s[|s| - 1]] == s[k + 1..];
    }
  }

  /** `tq.lower_bound` of the key (tier, free, UINT32_MAX). */
  function LowerBound(s: seq<Item>, tier: nat, free: nat): (k: nat)
    ensures k <= |s|
  {
    if s == [] || !Before(s[0], tier, free, UINT32_MAX) then 0 else 1 + LowerBound(s[1..], tier, free)
  }

  /** `tq.upper_bound` of the key (tier + 1, SIZE_MAX, UINT32_MAX): no message is that long,
      so this is the first item beyond the tier. */
  function UpperBound(s: seq<Item>, tier: nat): (k: nat)
    ensures k <= |s|
  {
    if s == [] || s[0].transmits > tier then 0 else 1 + UpperBound(s[1..], tier)
  }

  /** When nothing below `tier` fits, the two bounds decide whether the tier holds a fitting item,
      and the lower bound is the first fitting item of the whole queue. */
  lemma {:induction false} BoundsFindFirstFit(s: seq<Item>, tier: nat, free: nat)
    requires Sorted(s)
    requires forall x :: x in s ==> x.id <= UINT32_MAX
    requires forall x :: x in s && x.transmits < tier ==> x.len > free
    ensures var lo, up := LowerBound(s, tier, free), UpperBound(s, tier);
            && lo <= up
            && (forall i :: 0 <= i < lo ==> s[i].len > free)
            && (lo < up ==> s[lo].len <= free)
            && (lo == up ==> forall x :: x in s && x.transmits <= tier ==> x.len > free)
  {
    if s != [] && Before(s[0], tier, free, UINT32_MAX) {
      assert s[0] in s;
      SortedTail(s);
      BoundsFindFirstFit(s[1..], tier, free);
      assert s == [s[0]] + s[1..];
      var lo, up := LowerBound(s, tier, free), UpperBound(s, tier);
      forall i | 0 <= i < lo ensures s[i].len > free {
        if i > 0 { assert s[i] == s[1..][i - 1]; }
      }
    } else if s != [] {
      assert s[0] in s;
      assert forall k :: 0 < k < |s| ==> Less(s[0], s[k]);
    }
  }

  // ---------------------------------------------------------------- packet filling

  /** One pass of first fit over the order: what a packet of `free` bytes takes. */
  function Picks(s: seq<Item>, free: nat): seq<Item> {
    if s == [] then []
    else if s[0].len <= free then [s[0]] + Picks(s[1..], free - s[0].len)
    else Picks(s[1..], free)
  }

  /** ... and what it leaves in the queue. */
  function Leftover(s: seq<Item>, free: nat): seq<Item> {
    if s == [] then []
    else if s[0].len <= free then Leftover(s[1..], free - s[0].len)
    else [s[0]] + Leftover(s[1..], free)
  }

  function Total(s: seq<Item>): nat {
    if s == [] then 0 else Total(s[..|s| - 1]) + s[|s| - 1].len
  }

  function Messages(s: seq<Item>): seq<Message> {
    seq(|s|, i requires 0 <= i < |s| => s[i].b.msg)
  }

  /** Picked items that have transmissions left, counted up. */
  function Bumped(picked: seq<Item>, limit: nat): seq<Item> {
    if picked == [] then []
    else
      var last := picked[|picked| - 1];
      var front := Bumped(picked[..|picked| - 1], limit);
      if last.transmits + 1 >= limit then front else front + [last.(transmits := last.transmits + 1)]
  }

  /** The queue after a packet of `free` bytes was filled under a retransmit limit. */
  function AfterPacket(s: seq<Item>, free: nat, limit: nat): seq<Item> {
    InsertAll(Leftover(s, free), Bumped(Picks(s, free), limit))
  }

  /** `limit - overhead` on `size_t`. */
  function Budget(overhead: nat, limit: nat): nat {
    (limit - overhead) % SIZE_T_SIZE
  }

  lemma {:induction false} TotalHead(x: Item, s: seq<Item>)
    ensures Total([x] + s) == x.len + Total(s)
  {
    if s != [] {
      TotalHead(x, s[..|s| - 1]);
      assert ([x] + s)[..|[x] + s| - 1] == [x] + s[..|s| - 1];
    } else {
      assert [x] + s == [x];
    }
  }

  /** A packet splits the queue: every item is taken or left, never both. */
  lemma {:induction false} PicksPartition(s: seq<Item>, free: nat)
    requires Sorted(s)
    ensures forall x :: x in s <==> x in Picks(s, free) || x in Leftover(s, free)
    ensures forall x :: !(x in Picks(s, free) && x in Leftover(s, free))
  {
    if s != [] {
      SortedTail(s);
      assert s == [s[0]] + s[1..];
      PicksPartition(s[1..], if s[0].len <= free then free - s[0].len else free);
    }
  }

  lemma {:induction false} HeadLess(s: seq<Item>, t: seq<Item>)
    requires Sorted(s) && s != [] && forall x :: x in t ==> x in s[1..]
    ensures forall i :: 0 <= i < |t| ==> Less(s[0], t[i])
  {
    forall i | 0 <= i < |t| ensures Less(s[0], t[i]) {
      assert t[i] in t;
      var k :| 0 <= k < |s[1..]| && s[1..][k] == t[i];
      assert Less(s[0], s[k + 1]);
    }
  }

  lemma {:induction false} PicksSorted(s: seq<Item>, free: nat)
    requires Sorted(s)
    ensures Sorted(Picks(s, free)) && Sorted(Leftover(s, free))
  {
    if s != [] {
      SortedTail(s);
      var free' := if s[0].len <= free then free - s[0].len else free;
      PicksSorted(s[1..], free');
      PicksPartition(s[1..], free');
      HeadLess(s, Picks(s[1..], free'));
      HeadLess(s, Leftover(s[1..], free'));
    }
  }

  /** The bytes taken stay within the budget and nothing left behind fits into the rest. */
  lemma {:induction false} PicksFillTheBudget(s: seq<Item>, free: nat)
    ensures Total(Picks(s, free)) <= free
    ensures forall x :: x in Leftover(s, free) ==> x.len > free - Total(Picks(s, free))
  {
    if s != [] {
      if s[0].len <= free {
        PicksFillTheBudget(s[1..], free - s[0].len);
        TotalHead(s[0], Picks(s[1..], free - s[0].len));
      } else {
        PicksFillTheBudget(s[1..], free);
      }
    }
  }

  /** Greedy choice: the j-th pick precedes, in the queue's order, every other item that had not been
      taken yet and would have fitted at that moment. */
  lemma {:induction false} PicksAreGreedy(s: seq<Item>, free: nat, j: nat, y: Item)
    requires Sorted(s) && j < |Picks(s, free)| && y in s
    requires y !in Picks(s, free)[..j]
    requires y.len <= free - Total(Picks(s, free)[..j])
    ensures y == Picks(s, free)[j] || Less(Picks(s, free)[j], y)
  {
    SortedTail(s);
    assert s == [s[0]] + s[1..];
    var p := Picks(s, free);
    if s[0].len <= free {
      if j == 0 {
        if y != s[0] {
          var k :| 0 <= k < |s| && s[k] == y;
          assert Less(s[0], s[k]);
        }
      } else {
        var rest := Picks(s[1..], free - s[0].len);
        assert p[..j] == [s[0]] + rest[..j - 1];
        TotalHead(s[0], rest[..j - 1]);
        PicksAreGreedy(s[1..], free - s[0].len, j - 1, y);
      }
    } else {
      assert y != s[0];
      PicksAreGreedy(s[1..], free, j, y);
    }
  }

  /** Taking the first fitting item now and going on with the rest is the same single pass. */
  lemma {:induction false} PickFirstFit(s: seq<Item>, free: nat, k: nat)
    requires k < |s| && s[k].len <= free
    requires forall i :: 0 <= i < k ==> s[i].len > free
    ensures Picks(s, free) == [s[k]] + Picks(s[..k] + s[k + 1..], free - s[k].len)
    ensures Leftover(s, free) == Leftover(s[..k] + s[k + 1..], free - s[k].len)
  {
    var t := s[..k] + s[k + 1..];
    if k == 0 {
      assert t == s[1..];
    } else {
      PickFirstFit(s[1..], free, k - 1);
      assert t[1..] == s[1..][..k - 1] + s[1..][k..];
      assert t[0] == s[0];
    }
  }

  lemma {:induction false} NothingFits(s: seq<Item>, free: nat)
    requires forall x :: x in s ==> x.len > free
    ensures Picks(s, free) == [] && Leftover(s, free) == s
  {
    if s != [] {
      assert s[0] in s;
      NothingFits(s[1..], free);
    }
  }

  lemma {:induction false} SendsSomething(s: seq<Item>, free: nat)
    requires exists x :: x in s && x.len <= free
    ensures Picks(s, free) != []
  {
    if s[0].len > free {
      assert s == [s[0]] + s[1..];
      SendsSomething(s[1..], free);
    }
  }

  /** Something is sent exactly when something fits. */
  lemma {:induction false} SendsIffFits(s: seq<Item>, free: nat)
    ensures Picks(s, free) != [] <==> exists x :: x in s && x.len <= free
  {
    if exists x :: x in s && x.len <= free {
      SendsSomething(s, free);
    } else {
      NothingFits(s, free);
    }
  }

  lemma {:induction false} BumpedElements(picked: seq<Item>, limit: nat)
    ensures forall y :: y in Bumped(picked, limit) ==>
              exists p :: p in picked && p.transmits + 1 < limit && y == p.(transmits := p.transmits + 1)
    ensures forall p :: p in picked && p.transmits + 1 < limit ==>
              p.(transmits := p.transmits + 1) in Bumped(picked, limit)
  {
    if picked != [] {
      var front, last := picked[..|picked| - 1], picked[|picked| - 1];
      BumpedElements(front, limit);
      assert picked == front + [last];
    }
  }

  /** The items of `xs` can be inserted into `s` one after the other without a clash. */
  ghost predicate Insertable(xs: seq<Item>, s: seq<Item>, idGen: nat) {
    && (forall i :: 0 <= i < |xs| ==> xs[i].len > 0 && 1 <= xs[i].id <= idGen && Apart(xs[i], s))
    && (forall i, j :: 0 <= i < j < |xs| ==> xs[i].b.name != xs[j].b.name && xs[i].id != xs[j].id)
  }

  lemma {:induction false} InsertAllKeeps(s: seq<Item>, xs: seq<Item>, idGen: nat)
    requires WellFormed(s, idGen) && Insertable(xs, s, idGen)
    ensures WellFormed(InsertAll(s, xs), idGen)
    ensures forall y :: y in InsertAll(s, xs) <==> y in s || y in xs
  {
    if xs != [] {
      var front, last := xs[..|xs| - 1], xs[|xs| - 1];
      InsertAllKeeps(s, front, idGen);
      InsertKeeps(InsertAll(s, front), last, idGen);
      assert xs == front + [last];
    }
  }

  lemma {:induction false} InsertableNext(s: seq<Item>, xs: seq<Item>, idGen: nat)
    requires WellFormed(s, idGen) && xs != [] && Insertable(xs, s, idGen)
    ensures Insertable(xs[1..], Insert(s, xs[0]), idGen)
  {
    InsertElements(s, xs[0]);
  }

  lemma {:induction false} BumpedDiffers(picked: seq<Item>, last: Item, limit: nat)
    requires forall i :: 0 <= i < |picked| ==> picked[i].b.name != last.b.name && picked[i].id != last.id
    ensures forall i :: 0 <= i < |Bumped(picked, limit)| ==>
              Bumped(picked, limit)[i].b.name != last.b.name && Bumped(picked, limit)[i].id != last.id
  {
    if picked != [] {
      BumpedDiffers(picked[..|picked| - 1], last, limit);
    }
  }

  lemma {:induction false} BumpedInsertable(picked: seq<Item>, s: seq<Item>, limit: nat, idGen: nat)
    requires Insertable(picked, s, idGen)
    ensures Insertable(Bumped(picked, limit), s, idGen)
  {
    if picked != [] {
      var front, last := picked[..|picked| - 1], picked[|picked| - 1];
      BumpedInsertable(front, s, limit, idGen);
      BumpedDiffers(front, last, limit);
      assert Apart(last, s);
    }
  }

  lemma {:induction false} PicksInsertable(s: seq<Item>, free: nat, idGen: nat)
    requires WellFormed(s, idGen)
    ensures WellFormed(Leftover(s, free), idGen)
    ensures Insertable(Picks(s, free), Leftover(s, free), idGen)
  {
    PicksPartition(s, free);
    PicksSorted(s, free);
    var p := Picks(s, free);
    forall i, j | 0 <= i < j < |p| ensures p[i].b.name != p[j].b.name && p[i].id != p[j].id {
      assert Less(p[i], p[j]);
      assert p[i] in p && p[j] in p;
    }
    forall i | 0 <= i < |p| ensures p[i].len > 0 && 1 <= p[i].id <= idGen && Apart(p[i], Leftover(s, free)) {
      assert p[i] in p;
    }
  }

  /** Deferred reinsertion keeps the queue well formed: it holds the untaken items and the bumped ones. */
  lemma {:induction false} PacketKeeps(s: seq<Item>, free: nat, limit: nat, idGen: nat)
    requires WellFormed(s, idGen)
    ensures WellFormed(AfterPacket(s, free, limit), idGen)
    ensures forall y :: y in AfterPacket(s, free, limit) <==>
              y in Leftover(s, free) || y in Bumped(Picks(s, free), limit)
  {
    PicksInsertable(s, free, idGen);
    BumpedInsertable(Picks(s, free), Leftover(s, free), limit, idGen);
    InsertAllKeeps(Leftover(s, free), Bumped(Picks(s, free), limit), idGen);
  }

  /** No subject appears twice in a packet. */
  lemma {:induction false} PacketSubjectsDistinct(s: seq<Item>, free: nat, idGen: nat, i: nat, j: nat)
    requires WellFormed(s, idGen) && i < j < |Picks(s, free)|
    ensures Picks(s, free)[i].b.name != Picks(s, free)[j].b.name
  {
    PicksInsertable(s, free, idGen);
  }

  lemma {:induction false} EverythingFits(s: seq<Item>, free: nat)
    requires Total(s) <= free
    ensures Picks(s, free) == s
  {
    if s != [] {
      assert s == [s[0]] + s[1..];
      TotalHead(s[0], s[1..]);
      EverythingFits(s[1..], free - s[0].len);
    }
  }

  /** One overhead plus the bytes taken respect `limit`, unless the overhead alone exceeds it: then the `size_t`
      subtraction wraps, and every queued item that fits the wrapped budget, hence practically any, is sent. */
  lemma {:induction false} PacketWithinLimit(s: seq<Item>, overhead: nat, limit: nat)
    requires overhead < SIZE_T_SIZE && limit < SIZE_T_SIZE
    ensures var p := Picks(s, Budget(overhead, limit));
            p == [] || Total(p) + overhead <= limit <==>
            overhead <= limit || forall x :: x in s ==> x.len > Budget(overhead, limit)
    ensures overhead > limit && Total(s) <= Budget(overhead, limit) ==> Picks(s, Budget(overhead, limit)) == s
  {
    PicksFillTheBudget(s, Budget(overhead, limit));
    SendsIffFits(s, Budget(overhead, limit));
    if Total(s) <= Budget(overhead, limit) {
      EverythingFits(s, Budget(overhead, limit));
    }
  }

  // ---------------------------------------------------------------- overhead per message

  /** What the comment on `GetBroadcasts` promises: an overhead for every message, and all of it within the limit. */
  predicate PaysPerMessage(s: seq<Item>, overhead: nat, limit: nat) {
    var p := Picks(s, Budget(overhead, limit));
    Total(p) + overhead * |p| <= limit
  }

  lemma {:induction false} TotalAtLeast(s: seq<Item>, k: nat)
    requires k <= |s|
    ensures Total(s) >= Total(s[..k])
    decreases |s|
  {
    if k < |s| {
      TotalAtLeast(s[..|s| - 1], k);
      assert s[..|s| - 1][..k] == s[..k];
    } else {
      assert s[..k] == s;
    }
  }

  /** A packet of at most one message always pays. */
  lemma {:induction false} OneMessagePays(s: seq<Item>, overhead: nat, limit: nat)
    requires overhead <= limit < SIZE_T_SIZE && |Picks(s, limit - overhead)| <= 1
    ensures PaysPerMessage(s, overhead, limit)
  {
    PicksFillTheBudget(s, limit - overhead);
    assert overhead * |Picks(s, limit - overhead)| <= overhead;
  }

  /** Two picks need room for both. */
  lemma {:induction false} TwoPicksNeedRoom(s: seq<Item>, free: nat)
    requires |Picks(s, free)| >= 2
    ensures Picks(s, free)[0].len + Picks(s, free)[1].len <= free
  {
    var p := Picks(s, free);
    PicksFillTheBudget(s, free);
    TotalAtLeast(p, 2);
    assert p[..2] == [p[0], p[1]] && [p[0], p[1]][..1] == [p[0]] && [p[0]][..0] == [];
    assert Total([p[0]]) == p[0].len;
    assert Total([p[0], p[1]]) == Total([p[0]]) + p[1].len;
  }

  /** Without overhead, or without room for two picks of `pair` bytes together, the promise is kept. */
  lemma {:induction false} SmallPacketPays(s: seq<Item>, overhead: nat, limit: nat, pair: nat)
    requires overhead <= limit < SIZE_T_SIZE && (overhead == 0 || limit - overhead < pair)
    requires var p := Picks(s, limit - overhead); |p| >= 2 ==> p[0].len + p[1].len >= pair
    ensures PaysPerMessage(s, overhead, limit)
  {
    if |Picks(s, limit - overhead)| >= 2 {
      TwoPicksNeedRoom(s, limit - overhead);
      PicksFillTheBudget(s, limit - overhead);
    } else {
      OneMessagePays(s, overhead, limit);
    }
  }

  /** Two items that fill the budget to the last byte leave nothing for a second overhead. */
  lemma {:induction false} TwoItemsOverrun(x: Item, y: Item, overhead: nat, limit: nat)
    requires overhead <= limit < SIZE_T_SIZE && x.len + y.len == limit - overhead
    ensures PaysPerMessage([x, y], overhead, limit) <==> overhead == 0
  {
    var free := limit - overhead;
    assert [x, y][1..] == [y] && [y][1..] == [];
    assert Picks([y], y.len) == [y] + Picks([], 0);
    assert Picks([x, y], free) == [x] + Picks([y], free - x.len) == [x, y];
    assert [x, y][..1] == [x] && [x][..0] == [];
    assert Total([x]) == x.len;
    assert Total([x, y]) == Total([x]) + y.len;
  }

  lemma {:induction false} TwoWellFormed(x: Item, y: Item)
    requires x.transmits == y.transmits && x.len >= y.len > 0 && x.id == 2 && y.id == 1 && x.b.name != y.b.name
    ensures WellFormed([x, y], 2)
  {
  }

  lemma {:induction false} ItemsHaveBytes(s: seq<Item>, free: nat, idGen: nat)
    requires WellFormed(s, idGen)
    ensures forall i :: 0 <= i < |Picks(s, free)| ==> Picks(s, free)[i].len > 0 && Picks(s, free)[i] in s
  {
    PicksPartition(s, free);
    assert forall i :: 0 <= i < |Picks(s, free)| ==> Picks(s, free)[i] in Picks(s, free);
  }

  /** The promise holds of every queue exactly if there is no overhead or no room for two items of one byte. */
  lemma {:induction false} PerMessageOverhead(overhead: nat, limit: nat)
    requires overhead <= limit < SIZE_T_SIZE
    ensures (forall s, idGen :: WellFormed(s, idGen) ==> PaysPerMessage(s, overhead, limit)) <==>
            overhead == 0 || limit - overhead < 2
  {
    hide PaysPerMessage, WellFormed;
    forall s, idGen | WellFormed(s, idGen) && (overhead == 0 || limit - overhead < 2)
      ensures PaysPerMessage(s, overhead, limit)
    {
      ItemsHaveBytes(s, limit - overhead, idGen);
      SmallPacketPays(s, overhead, limit, 2);
    }
    if overhead > 0 && limit - overhead >= 2 {
      var x := Item(0, limit - overhead - 1, 2, Broadcast("a", Suspect(0, "a", ""), -1));
      var y := Item(0, 1, 1, Broadcast("b", Suspect(0, "b", ""), -1));
      TwoItemsOverrun(x, y, overhead, limit);
      TwoWellFormed(x, y);
    }
  }

  /** Items as the member submits them: filed under their subject, with their encoded length. */
  ghost predicate Encoded(s: seq<Item>) {
    forall x :: x in s ==> x.len == ByteSize(x.b.msg) && x.b.name == x.b.msg.node
  }

  lemma {:induction false} EncodedPays(s: seq<Item>, overhead: nat, limit: nat, idGen: nat)
    requires overhead <= limit < SIZE_T_SIZE && WellFormed(s, idGen) && Encoded(s)
    requires overhead == 0 || limit - overhead < 7
    ensures PaysPerMessage(s, overhead, limit)
  {
    hide PaysPerMessage, ByteSize, WellFormed;
    var p := Picks(s, limit - overhead);
    ItemsHaveBytes(s, limit - overhead, idGen);
    if |p| >= 2 {
      PacketSubjectsDistinct(s, limit - overhead, idGen, 0, 1);
      ShortestMessages(p[0].b.msg);
      ShortestMessages(p[1].b.msg);
    }
    SmallPacketPays(s, overhead, limit, 7);
  }

  /** The shortest message and one that fills the rest of the budget. */
  lemma {:induction false} ShortestTwoOverrun(overhead: nat, limit: nat) returns (s: seq<Item>)
    requires 0 < overhead <= limit < SIZE_T_SIZE && limit - overhead >= 7
    ensures WellFormed(s, 2) && Encoded(s) && !PaysPerMessage(s, overhead, limit)
  {
    var long := MessageOfSize(limit - overhead - 2);
    var short := Alive(0, "", Address("", 0));
    assert ByteSize(short) == 2;
    hide ByteSize, PaysPerMessage, WellFormed;
    var x := Item(0, ByteSize(long), 2, Broadcast(long.node, long, -1));
    var y := Item(0, ByteSize(short), 1, Broadcast("", short, -1));
    TwoItemsOverrun(x, y, overhead, limit);
    TwoWellFormed(x, y);
    s := [x, y];
  }

  /** The promise holds of every queue of encoded messages exactly if there is no overhead or no room for the two
      shortest messages with different subjects, of two and five bytes. */
  lemma {:induction false} PerMessageOverheadEncoded(overhead: nat, limit: nat)
    requires overhead <= limit < SIZE_T_SIZE
    ensures (forall s, idGen :: WellFormed(s, idGen) && Encoded(s) ==> PaysPerMessage(s, overhead, limit)) <==>
            overhead == 0 || limit - overhead < 7
  {
    hide PaysPerMessage;
    forall s, idGen | WellFormed(s, idGen) && Encoded(s) && (overhead == 0 || limit - overhead < 7)
      ensures PaysPerMessage(s, overhead, limit)
    {
      EncodedPays(s, overhead, limit, idGen);
    }
    if overhead > 0 && limit - overhead >= 7 {
      var s := ShortestTwoOverrun(overhead, limit);
    }
  }

  /** For instance, with the overhead of four bytes that `gossip` passes: eleven bytes take the two messages below,
      which with their two overheads need fifteen. */
  lemma {:induction false} PerMessageFails()
    ensures var a, b := Alive(0, "a", Address("", 0)), Alive(0, "", Address("", 0));
            var s := [Item(0, ByteSize(a), 2, Broadcast("a", a, -1)), Item(0, ByteSize(b), 1, Broadcast("", b, -1))];
            && WellFormed(s, 2) && Encoded(s)
            && Picks(s, Budget(4, 11)) == s && !PaysPerMessage(s, 4, 11)
  {
    var a, b := Alive(0, "a", Address("", 0)), Alive(0, "", Address("", 0));
    var x, y := Item(0, ByteSize(a), 2, Broadcast("a", a, -1)), Item(0, ByteSize(b), 1, Broadcast("", b, -1));
    assert ByteSize(a) == 5 && ByteSize(b) == 2;
    TwoItemsOverrun(x, y, 4, 11);
    TwoWellFormed(x, y);
    assert [x, y][..1] == [x] && [x][..0] == [];
    assert Total([x]) == 5;
    assert Total([x, y]) == 7;
    EverythingFits([x, y], 7);
  }

  // ---------------------------------------------------------------- pruning

  /** What the comment on `Prune` promises: whatever stays is newer than whatever goes. */
  ghost predicate KeepsLatest(s: seq<Item>, k: nat)
    requires k <= |s|
  {
    forall i, j :: 0 <= i < k <= j < |s| ==> s[i].id > s[j].id
  }

  /** Equal as far as the order looks before it looks at the ids. */
  predicate SameKey(x: Item, y: Item) {
    x.transmits == y.transmits && x.len == y.len
  }

  /** The same queue with other ids. */
  ghost predicate Renumbered(s: seq<Item>, t: seq<Item>) {
    && |t| == |s| && (exists idGen :: WellFormed(t, idGen))
    && forall i :: 0 <= i < |s| ==> t[i] == s[i].(id := t[i].id)
  }

  /** Newer ids for everything that differs from the first item. */
  function Renumber(s: seq<Item>): seq<Item> {
    seq(|s|, i requires 0 <= i < |s| => s[i].(id := if SameKey(s[i], s[0]) then |s| - i else 2 * |s| - i))
  }

  lemma {:induction false} RenumberKeeps(s: seq<Item>, idGen: nat)
    requires WellFormed(s, idGen) && s != []
    ensures Renumbered(s, Renumber(s))
  {
    var t := Renumber(s);
    forall i, j | 0 <= i < j < |s| ensures Less(t[i], t[j]) && t[i].id != t[j].id && t[i].b.name != t[j].b.name {
      assert Less(s[i], s[j]);
      assert s[i] in s && s[j] in s;
    }
    assert WellFormed(t, 2 * |s|);
  }

  /** With equal ends every two items have equal keys, and then the order is that of the ids. */
  lemma {:induction false} SameKeysDescend(s: seq<Item>, i: nat, j: nat)
    requires Sorted(s) && i < j < |s| && SameKey(s[0], s[|s| - 1])
    ensures s[i].id > s[j].id
  {
    assert Less(s[i], s[j]);
    assert 0 < i ==> Less(s[0], s[i]);
    assert j < |s| - 1 ==> Less(s[j], s[|s| - 1]);
  }

  /** Pruning to `k` of the items keeps the latest ones, whatever their ids are, exactly if all items have the same
      number of transmissions and the same length. */
  lemma {:induction false} PruneKeepsLatest(s: seq<Item>, k: nat, idGen: nat)
    requires WellFormed(s, idGen) && 0 < k < |s|
    ensures (forall t :: Renumbered(s, t) ==> KeepsLatest(t, k)) <==> SameKey(s[0], s[|s| - 1])
  {
    if SameKey(s[0], s[|s| - 1]) {
      forall t: seq<Item> | Renumbered(s, t) ensures KeepsLatest(t, k) {
        forall i, j | 0 <= i < k <= j < |t| ensures t[i].id > t[j].id {
          SameKeysDescend(t, i, j);
        }
      }
    } else {
      RenumberKeeps(s, idGen);
      var t := Renumber(s);
      assert t[0].id < t[|s| - 1].id;
      assert !KeepsLatest(t, k);
    }
  }

  /** Keeping none or all is never wrong. */
  lemma {:induction false} PruneAllOrNothing(s: seq<Item>)
    ensures KeepsLatest(s, 0) && KeepsLatest(s, |s|)
  {
  }

  /** For instance, of a long old message and a short new one the old one stays. */
  lemma {:induction false} PruneKeepsTheOlder(long: Item, short: Item)
    requires long.transmits == short.transmits && long.len > short.len > 0
    requires long.id == 1 && short.id == 2 && long.b.name != short.b.name
    ensures WellFormed([long, short], 2) && !KeepsLatest([long, short], 1)
  {
    assert [long, short][0].id < [long, short][1].id;
  }
}
