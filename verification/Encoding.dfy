/** The bytes of a `Broadcast`, each one a character: what `ByteSizeLong` measures. */
module Encoding {
  import opened Wire

  // ---------------------------------------------------------------- writing

  /** Seven bits at a time, the least first; all but the last byte have their top bit set. */
  function Varint(n: nat): string {
    if n < 128 then [n as char] else [(128 + n % 128) as char] + Varint(n / 128)
  }

  const VARINT: nat := 0

  const LENGTH_DELIMITED: nat := 2

  /** Field numbers stay below 16, so that a tag is one byte. */
  function Tag(field: nat, wire: nat): char
    requires field < 16 && wire < 8
  {
    (8 * field + wire) as char
  }

  function WriteUint(field: nat, n: nat): string
    requires field < 16
  {
    if n == 0 then "" else [Tag(field, VARINT)] + Varint(n)
  }

  function WriteBytes(field: nat, s: string): string
    requires field < 16
  {
    [Tag(field, LENGTH_DELIMITED)] + Varint(|s|) + s
  }

  function WriteString(field: nat, s: string): string
    requires field < 16
  {
    if s == "" then "" else WriteBytes(field, s)
  }

  function WriteBody(m: Message): string {
    match m
    case Alive(inc, node, addr) =>
      WriteUint(1, inc) + (WriteString(2, node) + (WriteString(3, addr.host) + WriteUint(4, addr.port)))
    case Suspect(inc, node, from) => WriteUint(1, inc) + (WriteString(2, node) + WriteString(3, from))
    case Dead(inc, node, from) => WriteUint(1, inc) + (WriteString(2, node) + WriteString(3, from))
  }

  /** `BroadcastType`, and the field of the content. */
  function Kind(m: Message): nat {
    match m
    case Alive(_, _, _) => 0
    case Dead(_, _, _) => 1
    case Suspect(_, _, _) => 2
  }

  function Encode(m: Message): string {
    WriteUint(1, Kind(m)) + WriteBytes(2 + Kind(m), WriteBody(m))
  }

  // ---------------------------------------------------------------- reading

  datatype Read<T> = Read(value: T, rest: string)

  function ReadVarint(s: string): Option<Read<nat>> {
    if s == "" then None
    else if s[0] as int < 128 then Some(Read(s[0] as int, s[1..]))
    else
      match ReadVarint(s[1..])
      case None => None
      case Some(r) => Some(Read(s[0] as int - 128 + 128 * r.value, r.rest))
  }

  function ReadUint(field: nat, s: string): Option<Read<nat>>
    requires field < 16
  {
    if s != "" && s[0] == Tag(field, VARINT) then ReadVarint(s[1..]) else Some(Read(0, s))
  }

  function ReadString(field: nat, s: string): Option<Read<string>>
    requires field < 16
  {
    if s == "" || s[0] != Tag(field, LENGTH_DELIMITED) then Some(Read("", s))
    else
      match ReadVarint(s[1..])
      case None => None
      case Some(r) => if r.value <= |r.rest| then Some(Read(r.rest[..r.value], r.rest[r.value..])) else None
  }

  function ReadBody(kind: nat, s: string): Option<Message> {
    match ReadUint(1, s)
    case None => None
    case Some(inc) =>
      match ReadString(2, inc.rest)
      case None => None
      case Some(node) =>
        match ReadString(3, node.rest)
        case None => None
        case Some(third) =>
          match ReadUint(4, third.rest)
          case None => None
          case Some(port) =>
            if inc.value >= UINT32_SIZE || port.rest != "" then None
            else if kind == 0 then Some(Alive(inc.value, node.value, Address(third.value, port.value)))
            else if port.value != 0 then None
            else if kind == 1 then Some(Dead(inc.value, node.value, third.value))
            else if kind == 2 then Some(Suspect(inc.value, node.value, third.value))
            else None
  }

  function Decode(s: string): Option<Message> {
    match ReadUint(1, s)
    case None => None
    case Some(kind) =>
      if kind.value > 2 then None
      else
        match ReadString(2 + kind.value, kind.rest)
        case None => None
        case Some(body) => if body.rest == "" then ReadBody(kind.value, body.value) else None
  }

  // ---------------------------------------------------------------- sizes

  lemma {:induction false} VarintSize(n: nat)
    ensures |Varint(n)| == VarintLen(n)
  {
    if n >= 128 {
      VarintSize(n / 128);
    }
  }

  lemma {:induction false} FieldSizes(field: nat, n: nat, s: string)
    requires field < 16
    ensures |WriteUint(field, n)| == UintField(n) && |WriteString(field, s)| == StringField(s)
    ensures |WriteBytes(field, s)| == 1 + VarintLen(|s|) + |s|
  {
    VarintSize(n);
    VarintSize(|s|);
  }

  /** The size that the queue reckons with is the number of bytes written. */
  lemma {:induction false} SizeIsExact(m: Message)
    ensures |Encode(m)| == ByteSize(m)
  {
    FieldSizes(1, m.inc, "");
    FieldSizes(2, 0, m.node);
    if m.Alive? {
      FieldSizes(3, 0, m.addr.host);
      FieldSizes(4, m.addr.port, "");
    } else {
      FieldSizes(3, 0, m.from);
    }
    assert |WriteBody(m)| == BodySize(m);
    FieldSizes(1, Kind(m), "");
    FieldSizes(2 + Kind(m), 0, WriteBody(m));
    hide WriteBody, BodySize, WriteString, WriteBytes;
    assert VarintLen(1) == 1 && VarintLen(2) == 1;
  }

  // ---------------------------------------------------------------- round trip

  lemma {:induction false} VarintReads(n: nat, rest: string)
    ensures ReadVarint(Varint(n) + rest) == Some(Read(n, rest))
  {
    if n < 128 {
      assert (Varint(n) + rest)[1..] == rest;
    } else {
      VarintReads(n / 128, rest);
      assert (Varint(n) + rest)[1..] == Varint(n / 128) + rest;
    }
  }

  /** What follows does not look like the field. */
  predicate Differs(rest: string, tag: char) {
    rest == "" || rest[0] != tag
  }

  lemma {:induction false} UintReads(field: nat, n: nat, rest: string)
    requires field < 16 && Differs(rest, Tag(field, VARINT))
    ensures ReadUint(field, WriteUint(field, n) + rest) == Some(Read(n, rest))
  {
    if n == 0 {
      assert WriteUint(field, n) + rest == rest;
    } else {
      VarintReads(n, rest);
      assert (WriteUint(field, n) + rest)[1..] == Varint(n) + rest;
    }
  }

  lemma {:induction false} BytesRead(field: nat, s: string, rest: string)
    requires field < 16
    ensures ReadString(field, WriteBytes(field, s) + rest) == Some(Read(s, rest))
  {
    VarintReads(|s|, s + rest);
    assert (WriteBytes(field, s) + rest)[1..] == Varint(|s|) + (s + rest);
    assert (s + rest)[..|s|] == s && (s + rest)[|s|..] == rest;
  }

  lemma {:induction false} StringReads(field: nat, s: string, rest: string)
    requires field < 16 && Differs(rest, Tag(field, LENGTH_DELIMITED))
    ensures ReadString(field, WriteString(field, s) + rest) == Some(Read(s, rest))
  {
    if s == "" {
      assert WriteString(field, s) + rest == rest;
    } else {
      BytesRead(field, s, rest);
    }
  }

  /** Fields with a higher number do not look like this one. */
  lemma {:induction false} LaterFieldsDiffer(field: nat, wire: nat, later: nat, s: string, n: nat, rest: string)
    requires field < later < 16 && wire < 8 && Differs(rest, Tag(field, wire))
    ensures Differs(WriteString(later, s) + rest, Tag(field, wire))
    ensures Differs(WriteUint(later, n) + rest, Tag(field, wire))
  {
    assert s == "" ==> WriteString(later, s) + rest == rest;
    assert n == 0 ==> WriteUint(later, n) + rest == rest;
  }

  lemma {:induction false} BodyReads(m: Message)
    ensures ReadBody(Kind(m), WriteBody(m)) == Some(m)
  {
    var third, port := if m.Alive? then m.addr.host else m.from, if m.Alive? then m.addr.port else 0;
    var r4 := WriteUint(4, port);
    var r3 := WriteString(3, third) + r4;
    var r2 := WriteString(2, m.node) + r3;
    assert r4 + "" == r4;
    LaterFieldsDiffer(3, LENGTH_DELIMITED, 4, "", port, "");
    LaterFieldsDiffer(2, LENGTH_DELIMITED, 4, "", port, "");
    LaterFieldsDiffer(2, LENGTH_DELIMITED, 3, third, 0, r4);
    LaterFieldsDiffer(1, VARINT, 4, "", port, "");
    LaterFieldsDiffer(1, VARINT, 3, third, 0, r4);
    LaterFieldsDiffer(1, VARINT, 2, m.node, 0, r3);
    assert !m.Alive? ==> r3 == WriteString(3, third);
    assert WriteBody(m) == WriteUint(1, m.inc) + r2;
    hide WriteUint, WriteString, WriteBody, Differs;
    UintReads(1, m.inc, r2);
    StringReads(2, m.node, r3);
    StringReads(3, third, r4);
    UintReads(4, port, "");
  }

  lemma {:induction false} EnvelopeReads(kind: nat, body: string)
    requires kind <= 2
    ensures Decode(WriteUint(1, kind) + WriteBytes(2 + kind, body)) == ReadBody(kind, body)
  {
    var bytes := WriteBytes(2 + kind, body);
    assert bytes[0] == Tag(2 + kind, LENGTH_DELIMITED);
    assert Differs(bytes, Tag(1, VARINT));
    hide ReadBody, WriteUint, WriteBytes, Differs, ReadUint, ReadString, Tag;
    UintReads(1, kind, bytes);
    assert bytes + "" == bytes;
    BytesRead(2 + kind, body, "");
  }

  /** What is written can be read back, so no field is lost or confused with another. */
  lemma {:induction false} DecodeEncode(m: Message)
    ensures Decode(Encode(m)) == Some(m)
  {
    hide WriteBody, ReadBody, WriteUint, WriteBytes, Decode;
    EnvelopeReads(Kind(m), WriteBody(m));
    BodyReads(m);
  }
}
