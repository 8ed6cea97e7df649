/** Packet framing of the memcached binary client: `_sendMsg` and `_recvMsg` (lib/mc_bin_client.py). */
module Framing {
  import opened Wrappers
  import opened Bytes

  const REQ_MAGIC: nat := 0x80
  const RES_MAGIC: nat := 0x81
  const ALT_REQ_MAGIC: nat := 0x08
  const ALT_RES_MAGIC: nat := 0x18
  const MIN_RECV_PACKET: nat := 24

  /** `>BBHBBHIIQ`: magic, opcode, key length, extras length, datatype, vBucket or status,
      body length, opaque, cas. */
  const PKT_FMT: Format :=
    Field(1, Field(1, Field(2, Field(1, Field(1, Field(2, Field(4, Field(4, Field(8, End)))))))))

  /** The arguments of `_sendMsg`; `extraLength` overrides the announced extras length. */
  datatype Outgoing = Outgoing(
    magic: nat, cmd: nat, dtype: nat, vbucket: nat, tag: nat, cas: nat,
    extra: seq<byte>, extraLength: Option<nat>, key: seq<byte>, value: seq<byte>, meta: seq<byte>)

  /** What `_recvMsg` returns. */
  datatype Message = Message(
    cmd: nat, errcode: nat, tag: nat, cas: nat, keylen: nat, extralen: nat, dtype: nat, body: seq<byte>)

  /** EOFError when the peer closes early; AssertionError on an unknown magic; ValueError on the
      alternative framing, whose ten fields are unpacked into nine names. */
  datatype Received = Received(msg: Message) | EOFError | AssertionError | ValueError

  function Body(m: Outgoing): seq<byte> {
    m.extra + m.key + m.value + m.meta
  }

  function HeaderFields(m: Outgoing): (vs: seq<nat>) {
    [m.magic, m.cmd, |m.key|,
     match m.extraLength { case None => |m.extra| case Some(n) => n },
     m.dtype, m.vbucket, |Body(m)|, m.tag, m.cas]
  }

  /** `struct.pack` accepts the header. */
  predicate Sendable(m: Outgoing) {
    Fits(PKT_FMT, HeaderFields(m))
  }

  function Wire(m: Outgoing): (s: seq<byte>)
    requires Sendable(m)
  {
    Pack(PKT_FMT, HeaderFields(m)) + Body(m)
  }

  /** The receiver's view of a message: what it should get back, field by field. */
  function Expected(m: Outgoing): Message {
    var vs := HeaderFields(m);
    Message(m.cmd, m.vbucket, m.tag, m.cas, |m.key|, vs[3], m.dtype, Body(m))
  }

  /** Reading one packet off the front of everything the peer will ever send. */
  function ReadPacket(s: seq<byte>): (Received, seq<byte>) {
    if |s| < MIN_RECV_PACKET then (EOFError, [])
    else
      var vs := Unpack(PKT_FMT, s[..MIN_RECV_PACKET]);
      var rest := s[MIN_RECV_PACKET..];
      if vs[0] !in {REQ_MAGIC, RES_MAGIC, ALT_REQ_MAGIC, ALT_RES_MAGIC} then (AssertionError, rest)
      else if vs[0] in {ALT_REQ_MAGIC, ALT_RES_MAGIC} then (ValueError, rest)
      else if |rest| < vs[6] then (EOFError, [])
      else
        (Received(Message(vs[1], vs[5], vs[7], vs[8], vs[2], vs[3], vs[4], rest[..vs[6]])), rest[vs[6]..])
  }

  /** A connected socket: the bytes still to come, handed out in pieces of any non-zero size. */
  class Socket {
    var incoming: seq<byte>

    constructor (bytes: seq<byte>)
      ensures incoming == bytes
    {
      incoming := bytes;
    }

    /** `recv(n)`: between one and `n` bytes, however the stream happens to be fragmented;
        nothing only when the peer has closed. */
    method Recv(n: nat) returns (data: seq<byte>)
      requires n > 0
      modifies this
      ensures data + incoming == old(incoming)
      ensures |data| <= n
      ensures data == [] <==> old(incoming) == []
    {
      if incoming == [] {
        return [];
      }
      assert 1 <= 1 <= n && 1 <= |incoming|;
      var k: nat :| 1 <= k <= n && k <= |incoming|;
      data := incoming[..k];
      incoming := incoming[k..];
    }

    /** The two receive loops both have this shape; `got` is None when the stream ends first. */
    method RecvExactly(n: nat) returns (got: Option<seq<byte>>)
      modifies this
      ensures |old(incoming)| >= n ==> got == Some(old(incoming)[..n]) && incoming == old(incoming)[n..]
      ensures |old(incoming)| < n ==> got == None && incoming == []
    {
      var rv: seq<byte> := [];
      var remaining := n;
      while remaining > 0
        invariant 0 <= remaining == n - |rv|
        invariant rv + incoming == old(incoming)
      {
        var data := Recv(remaining);
        if data == [] {
          return None;
        }
        rv := rv + data;
        remaining := remaining - |data|;
      }
      assert old(incoming)[..n] == rv && old(incoming)[n..] == incoming;
      return Some(rv);
    }

    /** The outcome and what is left unread depend on the byte stream alone, not on its fragmentation. */
    method RecvMsg() returns (r: Received)
      modifies this
      ensures (r, incoming) == ReadPacket(old(incoming))
    {
      var response := RecvExactly(MIN_RECV_PACKET);
      if response == None {
        return EOFError;
      }
      var vs := Unpack(PKT_FMT, response.value);
      var magic := vs[0];
      if magic !in {RES_MAGIC, REQ_MAGIC, ALT_RES_MAGIC, ALT_REQ_MAGIC} {
        return AssertionError;
      }
      if magic == ALT_RES_MAGIC || magic == ALT_REQ_MAGIC {
        return ValueError;
      }
      var rv := RecvExactly(vs[6]);
      if rv == None {
        return EOFError;
      }
      r := Received(Message(vs[1], vs[5], vs[7], vs[8], vs[2], vs[3], vs[4], rv.value));
    }

    /** `n` calls in a row read the first `n` packets of the stream, however it is fragmented. */
    method RecvMany(n: nat) returns (got: seq<Received>)
      modifies this
      ensures (got, incoming) == ReadN(ReadPacket, n, old(incoming))
    {
      got := [];
      ghost var all := ReadN(ReadPacket, n, incoming);
      while |got| < n
        invariant |got| <= n
        invariant got + ReadN(ReadPacket, n - |got|, incoming).0 == all.0
        invariant ReadN(ReadPacket, n - |got|, incoming).1 == all.1
      {
        ghost var (head, tail) := ReadPacket(incoming);
        ghost var rest := ReadN(ReadPacket, n - |got| - 1, tail).0;
        var r := RecvMsg();
        assert got + ([r] + rest) == (got + [r]) + rest;
        got := got + [r];
      }
      assert got + [] == got;
    }
  }

  /** Packets the plain framing can carry: header in range and an ordinary magic byte. */
  predicate AllSendable(ms: seq<Outgoing>) {
    forall m :: m in ms ==> Sendable(m) && m.magic in {REQ_MAGIC, RES_MAGIC}
  }

  function Concat(packets: seq<seq<byte>>): seq<byte> {
    if packets == [] then [] else packets[0] + Concat(packets[1..])
  }

  function WireAll(ms: seq<Outgoing>): seq<byte>
    requires AllSendable(ms)
  {
    Concat(seq(|ms|, i requires 0 <= i < |ms| => Wire(ms[i])))
  }

  /** One packet is read back exactly, consuming exactly 24 bytes plus its body, if and only if it has an ordinary
      magic byte. With another one the receiver raises and leaves the body to be read as the next packet. */
  lemma ReadWire(m: Outgoing, rest: seq<byte>)
    requires Sendable(m)
    ensures ReadPacket(Wire(m) + rest) == (Received(Expected(m)), rest) <==> m.magic in {REQ_MAGIC, RES_MAGIC}
    ensures m.magic in {ALT_REQ_MAGIC, ALT_RES_MAGIC} ==> ReadPacket(Wire(m) + rest) == (ValueError, Body(m) + rest)
    ensures m.magic !in {REQ_MAGIC, RES_MAGIC, ALT_REQ_MAGIC, ALT_RES_MAGIC} ==>
              ReadPacket(Wire(m) + rest) == (AssertionError, Body(m) + rest)
    ensures |Wire(m)| == MIN_RECV_PACKET + |Body(m)|
  {
    var s := Wire(m) + rest;
    UnpackPack(PKT_FMT, HeaderFields(m));
    assert s[..MIN_RECV_PACKET] == Pack(PKT_FMT, HeaderFields(m));
    var body := s[MIN_RECV_PACKET..];
    assert body == Body(m) + rest;
    assert body[..|Body(m)|] == Body(m) && body[|Body(m)|..] == rest;
  }

  // ---------- Where everything stands in a packet ----------

  /** The nine numbers of a header: their places in the first 24 bytes. */
  predicate HeaderAt(num: seq<byte> -> nat, s: seq<byte>, magic: nat, cmd: nat, keylen: nat, extralen: nat, dtype: nat,
                     vbucket: nat, bodylen: nat, tag: nat, cas: nat)
    requires |s| >= 24
  {
    && num(s[0..1]) == magic && num(s[1..2]) == cmd && num(s[2..4]) == keylen && num(s[4..5]) == extralen
    && num(s[5..6]) == dtype && num(s[6..8]) == vbucket && num(s[8..12]) == bodylen
    && num(s[12..16]) == tag && num(s[16..24]) == cas
  }

  lemma HeaderSizes(f: Format, middle: Format, last: Format)
    requires f == PKT_FMT && last == Field(4, Field(4, Field(8, End))) && middle == Field(1, Field(1, Field(2, last)))
    ensures f == Field(1, Field(1, Field(2, middle))) && Size(last) == 16 && Size(middle) == 20 && Size(f) == 24
    ensures Arity(f) == 9
  {
  }

  lemma HeaderUnpacked(s: seq<byte>, f: Format, vs: seq<nat>)
    requires |s| >= 24 && f == PKT_FMT && Size(f) == 24 && vs == Unpack(f, s[0..24])
    ensures |vs| == 9 && HeaderAt(UnpackInt, s, vs[0], vs[1], vs[2], vs[3], vs[4], vs[5], vs[6], vs[7], vs[8])
  {
    hide *;
    var last := Field(4, Field(4, Field(8, End)));
    var middle := Field(1, Field(1, Field(2, last)));
    HeaderSizes(f, middle, last);
    UnpackIs(f, s[0..24]);
    HeaderWith(UnpackInt, s, f, middle, last, vs);
  }

  lemma HeaderWith(num: seq<byte> -> nat, s: seq<byte>, f: Format, middle: Format, last: Format, vs: seq<nat>)
    requires |s| >= 24 && f == Field(1, Field(1, Field(2, middle))) && middle == Field(1, Field(1, Field(2, last)))
    requires last == Field(4, Field(4, Field(8, End))) && Size(last) == 16 && Size(middle) == 20 && Size(f) == 24
    requires vs == UnpackWith(num, f, s[0..24])
    ensures |vs| == 9 && HeaderAt(num, s, vs[0], vs[1], vs[2], vs[3], vs[4], vs[5], vs[6], vs[7], vs[8])
  {
    hide UnpackWith, Size;
    ConsThreeAt(num, 1, 1, 2, middle, s, 0, 24);
    ConsThreeAt(num, 1, 1, 2, last, s, 4, 24);
    EndAt(num, s, 24);
    ConsThreeAt(num, 4, 4, 8, End, s, 8, 24);
    var others := UnpackWith(num, middle, s[4..24]);
    assert vs == [num(s[0..1]), num(s[1..2]), num(s[2..4])] + others;
    assert others == [num(s[4..5]), num(s[5..6]), num(s[6..8])] + [num(s[8..12]), num(s[12..16]), num(s[16..24])];
  }

  /** A packet begins with its header, field by field, and then come extras, key, value and metadata. */
  lemma WireLaid(m: Outgoing)
    requires Sendable(m)
    ensures |Wire(m)| == 24 + |m.extra| + |m.key| + |m.value| + |m.meta|
    ensures HeaderAt(UnpackInt, Wire(m), m.magic, m.cmd, |m.key|,
                     if m.extraLength.Some? then m.extraLength.value else |m.extra|,
                     m.dtype, m.vbucket, |m.extra| + |m.key| + |m.value| + |m.meta|, m.tag, m.cas)
    ensures Wire(m)[24..] == m.extra + m.key + m.value + m.meta
  {
    WireUnpacked(m, PKT_FMT);
    hide *;
    HeaderUnpacked(Wire(m), PKT_FMT, HeaderFields(m));
  }

  lemma WireUnpacked(m: Outgoing, f: Format)
    requires Sendable(m) && f == PKT_FMT
    ensures |Wire(m)| == 24 + |Body(m)| && Size(f) == 24
    ensures Unpack(f, Wire(m)[0..24]) == HeaderFields(m) && Wire(m)[24..] == Body(m)
  {
    HeaderSize(f);
    UnpackPack(f, HeaderFields(m));
    var header := Pack(f, HeaderFields(m));
    assert Wire(m) == header + Body(m) && Wire(m)[0..24] == header;
  }

  lemma HeaderSize(f: Format)
    requires f == PKT_FMT
    ensures Size(f) == 24
  {
  }

  /** A header can be packed if and only if each number fits its bytes. */
  lemma SendableIff(m: Outgoing)
    ensures Sendable(m) <==>
            && m.magic < 0x100 && m.cmd < 0x100 && |m.key| < 0x1_0000 && m.dtype < 0x100 && m.vbucket < 0x1_0000
            && (if m.extraLength.Some? then m.extraLength.value else |m.extra|) < 0x100
            && |m.extra| + |m.key| + |m.value| + |m.meta| < 0x1_0000_0000
            && m.tag < 0x1_0000_0000 && m.cas < 0x1_0000_0000_0000_0000
  {
    assert Pow256(1) == 0x100 && Pow256(2) == 0x1_0000;
    assert Pow256(4) == 0x1_0000_0000 && Pow256(8) == 0x1_0000_0000_0000_0000;
    var vs := HeaderFields(m);
    var last := Field(4, Field(4, Field(8, End)));
    var middle := Field(1, Field(1, Field(2, last)));
    hide Fits, Pow256;
    FitsThree(1, 1, 2, middle, vs);
    FitsThree(1, 1, 2, last, vs[3..]);
    FitsThree(4, 4, 8, End, vs[6..]);
    FitsEnd(vs[9..]);
  }

  lemma {:induction false} FitsThree(x: nat, y: nat, z: nat, rest: Format, vs: seq<nat>)
    requires |vs| >= 3
    ensures Fits(Field(x, Field(y, Field(z, rest))), vs) <==>
            vs[0] < Pow256(x) && vs[1] < Pow256(y) && vs[2] < Pow256(z) && Fits(rest, vs[3..])
  {
    hide Fits, Pow256;
    FitsField(z, rest, vs[2..]);
    FitsField(y, Field(z, rest), vs[1..]);
    FitsField(x, Field(y, Field(z, rest)), vs);
    assert vs[1..][1..] == vs[2..] && vs[2..][1..] == vs[3..];
  }

  lemma {:induction false} FitsField(w: nat, rest: Format, vs: seq<nat>)
    requires vs != []
    ensures Fits(Field(w, rest), vs) <==> vs[0] < Pow256(w) && Fits(rest, vs[1..])
  {
    hide Pow256;
  }

  lemma FitsEnd(vs: seq<nat>)
    ensures Fits(End, vs) <==> vs == []
  {
  }

  /** What the receiver makes of a stream, by the places in it: fewer than 24 bytes are the end; the magic byte decides
      on the exceptions; the body has the announced length, and fewer bytes than that are the end. */
  lemma PacketLaid(s: seq<byte>)
    ensures var (r, rest) := ReadPacket(s);
            if |s| < 24 then r == EOFError && rest == []
            else if s[0] == 0x80 || s[0] == 0x81 then
              var end := 24 + UnpackInt(s[8..12]);
              if |s| < end then r == EOFError && rest == []
              else r.Received? && rest == s[end..] && r.msg.body == s[24..end] && MessageAt(UnpackInt, s, r.msg)
            else r == (if s[0] == 0x08 || s[0] == 0x18 then ValueError else AssertionError) && rest == s[24..]
  {
    if |s| >= 24 {
      PacketUnpacked(s, PKT_FMT);
      assert s[0..1] == [s[0]];
      OneByte(s[0]);
    }
  }

  predicate MessageAt(num: seq<byte> -> nat, s: seq<byte>, m: Message)
    requires |s| >= 24
  {
    HeaderAt(num, s, num(s[0..1]), m.cmd, m.keylen, m.extralen, m.dtype, m.errcode, num(s[8..12]), m.tag, m.cas)
  }

  lemma PacketUnpacked(s: seq<byte>, f: Format)
    requires |s| >= 24 && f == PKT_FMT
    ensures Size(f) == 24
    ensures var vs := Unpack(f, s[..24]);
            |vs| == 9 && HeaderAt(UnpackInt, s, vs[0], vs[1], vs[2], vs[3], vs[4], vs[5], vs[6], vs[7], vs[8])
  {
    HeaderSize(f);
    assert s[..24] == s[0..24];
    HeaderUnpacked(s, f, Unpack(f, s[0..24]));
  }

  /** Reading `n` items off a stream, each by `read`. */
  function ReadN<T>(read: seq<byte> -> (T, seq<byte>), n: nat, s: seq<byte>): (r: (seq<T>, seq<byte>))
    ensures |r.0| == n
  {
    if n == 0 then ([], s)
    else
      var (first, rest) := read(s);
      var (others, left) := ReadN(read, n - 1, rest);
      ([first] + others, left)
  }

  /** `read` recognises `packet` as `item` whatever follows it. */
  ghost predicate SelfDelimiting<T(!new)>(read: seq<byte> -> (T, seq<byte>), packet: seq<byte>, item: T) {
    forall rest :: read(packet + rest) == (item, rest)
  }

  /** Self-delimiting packets can be strung together and read back one by one. */
  lemma {:induction false} ReadConcat<T(!new)>(
    read: seq<byte> -> (T, seq<byte>), packets: seq<seq<byte>>, items: seq<T>, rest: seq<byte>)
    requires |packets| == |items|
    requires forall i :: 0 <= i < |packets| ==> SelfDelimiting(read, packets[i], items[i])
    ensures ReadN(read, |packets|, Concat(packets) + rest) == (items, rest)
  {
    if packets == [] {
      assert Concat(packets) + rest == rest;
    } else {
      assert SelfDelimiting(read, packets[0], items[0]);
      var others := Concat(packets[1..]) + rest;
      assert Concat(packets) + rest == packets[0] + others;
      ReadConcat(read, packets[1..], items[1..], rest);
      assert items == [items[0]] + items[1..];
    }
  }

  /** The stream of any number of packets is read back as exactly those packets, in order. */
  lemma ReadWireAll(ms: seq<Outgoing>, rest: seq<byte>)
    requires AllSendable(ms)
    ensures ReadN(ReadPacket, |ms|, WireAll(ms) + rest) ==
            (seq(|ms|, i requires 0 <= i < |ms| => Received(Expected(ms[i]))), rest)
  {
    var packets := seq(|ms|, i requires 0 <= i < |ms| => Wire(ms[i]));
    var items := seq(|ms|, i requires 0 <= i < |ms| => Received(Expected(ms[i])));
    forall i | 0 <= i < |ms| ensures SelfDelimiting(ReadPacket, packets[i], items[i]) {
      forall more { ReadWire(ms[i], more); }
    }
    ReadConcat(ReadPacket, packets, items, rest);
  }

  /** Sending: `struct.error` unless every header field fits, else the bytes of a packet. */
  method SendMsg(m: Outgoing) returns (sent: Option<seq<byte>>)
    ensures sent == if Sendable(m) then Some(Wire(m)) else None
    ensures sent.Some? && m.magic in {REQ_MAGIC, RES_MAGIC} ==>
              ReadPacket(sent.value) == (Received(Expected(m)), [])
  {
    var extraHeaderLength := if m.extraLength.None? then |m.extra| else m.extraLength.value;
    var fields := [m.magic, m.cmd, |m.key|, extraHeaderLength, m.dtype, m.vbucket,
                   |m.key| + |m.extra| + |m.value| + |m.meta|, m.tag, m.cas];
    assert fields == HeaderFields(m);
    if !Fits(PKT_FMT, fields) {
      return None;
    }
    var msg := Pack(PKT_FMT, fields);
    sent := Some(msg + m.extra + m.key + m.value + m.meta);
    assert sent.value == Wire(m) == Wire(m) + [];
    ReadWire(m, []);
  }
}
