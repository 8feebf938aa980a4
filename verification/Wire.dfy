/** Messages, fixed-width integers and the values the protocol stores. */
module Wire {
  const UINT32_SIZE: nat := 0x1_0000_0000

  const UINT32_MAX: nat := 0xFFFF_FFFF

  const SIZE_T_SIZE: nat := 0x1_0000_0000_0000_0000

  /** `uint32_t`: arithmetic on it wraps. */
  type U32 = x: int | 0 <= x < 0x1_0000_0000

  function Wrap32(x: int): U32 {
    x % UINT32_SIZE
  }

  type Name = string

  ghost predicate NoDuplicates(s: seq<Name>) {
    forall i, j :: 0 <= i < j < |s| ==> s[i] != s[j]
  }

  datatype Option<T> = None | Some(value: T)

  datatype Address = Address(host: string, port: nat)

  /** `NodeStateType`. */
  datatype Status = StateAlive | StateSuspect | StateDead | StateLeft

  /** One `Broadcast`: the three messages that gossip carries. */
  datatype Message =
    | Alive(inc: U32, node: Name, addr: Address)
    | Suspect(inc: U32, node: Name, from: Name)
    | Dead(inc: U32, node: Name, from: Name)

  /** One entry of a push/pull exchange. */
  datatype PushState = PushState(name: Name, addr: Address, inc: U32, status: Status)

  // Encoded size of a `Broadcast`, proto3 rules: default-valued fields are omitted.

  function VarintLen(n: nat): (len: nat)
    ensures len >= 1
  {
    if n < 128 then 1 else 1 + VarintLen(n / 128)
  }

  function UintField(n: nat): nat {
    if n == 0 then 0 else 1 + VarintLen(n)
  }

  function StringField(s: string): nat {
    if s == "" then 0 else 1 + VarintLen(|s|) + |s|
  }

  function BodySize(m: Message): nat {
    match m
    case Alive(inc, node, addr) =>
      UintField(inc) + StringField(node) + StringField(addr.host) + UintField(addr.port)
    case Suspect(inc, node, from) =>
      UintField(inc) + StringField(node) + StringField(from)
    case Dead(inc, node, from) =>
      UintField(inc) + StringField(node) + StringField(from)
  }

  /** `ByteSizeLong` of a broadcast; never zero, because the `oneof` content is always present. */
  function ByteSize(m: Message): (len: nat)
    ensures len > 0
  {
    (if m.Alive? then 0 else 2) + 1 + VarintLen(BodySize(m)) + BodySize(m)
  }

  /** No message is shorter than two bytes, and one about a named subject has at least five. */
  lemma {:induction false} ShortestMessages(m: Message)
    ensures ByteSize(m) >= 2 && (m.node != "" ==> ByteSize(m) >= 5)
  {
  }

  // Every length from five bytes on is the length of some message.

  /** A length prefix and that many bytes, behind a one-byte tag. */
  function Tagged(n: nat): nat {
    1 + VarintLen(n) + n
  }

  /** Where the prefix of the next number is longer, it is by one byte, and the number before has the same prefix. */
  lemma {:induction false} VarintGrows(n: nat)
    ensures VarintLen(n) <= VarintLen(n + 1) <= VarintLen(n) + 1
    ensures VarintLen(n) < VarintLen(n + 1) ==> n >= 127 && VarintLen(n - 1) == VarintLen(n)
  {
    if n >= 128 {
      if (n + 1) / 128 != n / 128 {
        VarintGrows(n / 128);
        assert (n + 1) / 128 == n / 128 + 1 && (n - 1) / 128 == n / 128;
      }
    }
  }

  /** `n` is a tagged length, or falls into the gap behind a longer prefix and is two more than one. */
  lemma {:induction false} TaggedReaches(n: nat) returns (b: nat)
    requires n >= 2
    ensures Tagged(b) == n || (Tagged(b) == n - 1 && Tagged(b + 1) == n + 1 && b >= 127 && Tagged(b - 1) == n - 2)
  {
    if n == 2 {
      b := 0;
    } else {
      b := TaggedReaches(n - 1);
      VarintGrows(b);
      if Tagged(b) != n - 1 || Tagged(b + 1) == n {
        b := b + 1;
      }
    }
  }

  /** The fields of an Alive or Suspect message with `n` bytes of content and a named subject. */
  lemma {:induction false} BodyOfSize(n: nat) returns (inc: U32, node: Name)
    requires n >= 3
    ensures node != "" && UintField(inc) + StringField(node) == n
  {
    var b := TaggedReaches(n);
    if Tagged(b) == n {
      inc, node := 0, seq(b, i => 'x');
    } else {
      inc, node := 1, seq(b - 1, i => 'x');
    }
  }

  lemma {:induction false} MessageOfSize(n: nat) returns (m: Message)
    requires n >= 5
    ensures m.node != "" && ByteSize(m) == n
  {
    var b := TaggedReaches(n);
    var c := if Tagged(b) == n then b else b - 1;
    assert VarintLen(2) == 1;
    var inc, node := BodyOfSize(c);
    m := if Tagged(b) == n then Alive(inc, node, Address("", 0)) else Suspect(inc, node, "");
  }
}
