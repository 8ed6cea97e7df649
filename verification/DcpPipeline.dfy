/**
 Demultiplexer, decoder and stream together (lib/dcp_bin_client.py): what `DcpStream.run` returns, told from the
 messages that a producer sends, however they interleave with those of other operations on the socket.
 */
module DcpPipeline {
  import opened Wrappers
  import opened DcpOpcodes
  import opened DcpMessages
  import opened Lists
  import Bytes
  import DcpDecode
  import DcpDemux
  import DcpStream

  // ---------- The parts joined ----------

  const DATATYPE_XATTR: nat := 4

  function PacketOf(m: Message): DcpDecode.Packet {
    DcpDecode.Packet(m.opcode, m.keylen, m.extlen, m.dtype / DATATYPE_XATTR % 2 == 1, m.frameExtraLen, m.body)
  }

  /** The response to a streamed message: its status field is the vBucket, and where there is a sequence number it
      is the first of the numbers in the extras. */
  function ResponseOf(vbucket: int, d: DcpDecode.Decoded): Response {
    var numbered := d.opcode in {CMD_MUTATION, CMD_DELETION, CMD_EXPIRATION, CMD_SYSTEM_EVENT} && d.fields != [];
    Response(d.opcode, vbucket, if numbered then Some(d.fields[0]) else None, None, Some(d))
  }

  /** `formated_response` of a stream request; `onRequest` stands for its handling of the request's own answer. */
  function Format(cfg: DcpDecode.Config, onRequest: Message -> Option<Response>): Message -> Option<Response> {
    (m: Message) =>
      if m.opcode == CMD_STREAM_REQ then onRequest(m)
      else
        var d := DcpDecode.Decode(cfg, PacketOf(m));
        if d.Some? then Some(ResponseOf(m.status, d.value)) else None
  }

  /** The attribute bit is the third of the datatype byte. */
  lemma XattrBit(m: Message, dtype: bv8)
    requires m.dtype == dtype as nat
    ensures PacketOf(m).hasXattrs <==> dtype & 4 == 4
  {
    assert (dtype / 4 % 2 == 1) == (dtype & 4 == 4);
  }

  /** The response to a message that has a sequence number, from the bytes of the message: the vBucket is the status
      field, and the number stands in the eight bytes behind the frame. */
  lemma NumberedResponse(cfg: DcpDecode.Config, onRequest: Message -> Option<Response>, m: Message, r: Response)
    requires m.opcode in {0x57, 0x58, 0x59, 0x5f} && Format(cfg, onRequest)(m) == Some(r)
    ensures m.frameExtraLen + 8 <= |m.body|
    ensures r.opcode == m.opcode && r.vbucket == m.status && r.status == None
    ensures r.seqno == Some(Bytes.UnpackInt(m.body[m.frameExtraLen..m.frameExtraLen + 8]))
  {
    hide DcpDecode.Decode, Bytes.UnpackInt;
    var p := PacketOf(m);
    var d := DcpDecode.Decode(cfg, p).value;
    DecodedOpcode(cfg, p, d);
    if m.opcode == 0x57 {
      DcpDecode.MutationAt(cfg, p, d);
    } else if m.opcode == 0x58 {
      DcpDecode.DeletionAt(cfg, p, d);
    } else if m.opcode == 0x59 {
      DcpDecode.ExpirationOrSnapshotAt(cfg, p, d);
    } else {
      DcpDecode.SystemEventAt(cfg, p, d);
    }
  }

  lemma DecodedOpcode(cfg: DcpDecode.Config, p: DcpDecode.Packet, d: DcpDecode.Decoded)
    requires DcpDecode.Decode(cfg, p) == Some(d)
    ensures d.opcode == p.opcode
  {
  }

  /** What `recv_op` returns when the peer has died. */
  const DEAD: Response := Response(CMD_STREAM_REQ, 0, None, Some(0xff), None)

  /** What one resumption of the generator hands to the stream. */
  function Handed(out: DcpDemux.Outcome): seq<Option<Response>> {
    match out
    case Got(r) => [Some(r)]
    case Died => [Some(DEAD)]
    case Nothing => [None]
    case Stopped => []
  }

  /** What the generator of stream `o` yields along a run, after the first response. */
  function Feed(o: nat, actions: seq<DcpDemux.Action>, outs: seq<DcpDemux.Outcome>): seq<Option<Response>>
    requires |actions| == |outs|
  {
    if actions == [] then []
    else (if actions[0] == DcpDemux.Pull(o) then Handed(outs[0]) else []) + Feed(o, actions[1..], outs[1..])
  }

  /** The responses in the generator's yield are those delivered to its operation. */
  lemma {:induction false} FeedDelivered(s: DcpDemux.Client, o: nat, actions: seq<DcpDemux.Action>)
    requires s.Valid() && DcpDemux.Runnable(s, actions) && o in s.ops && DcpDemux.Died !in DcpDemux.Run(s, actions).1
    ensures DcpStream.Present(Feed(o, actions, DcpDemux.Run(s, actions).1)) ==
            DcpDemux.DeliveredTo(o, actions, DcpDemux.Run(s, actions).1)
    decreases |actions|
  {
    if actions != [] {
      var (t, out) := DcpDemux.Step(s, actions[0]);
      var outs := DcpDemux.Run(t, actions[1..]).1;
      assert DcpDemux.Run(s, actions).1 == [out] + outs;
      DcpDemux.StepKeeps(s, actions[0], o);
      FeedDelivered(t, o, actions[1..]);
      var a := if actions[0] == DcpDemux.Pull(o) then Handed(out) else [];
      FlatMapConcat(DcpStream.PresentIn, a, Feed(o, actions[1..], outs));
      HandedPresent(out);
    }
  }

  lemma HandedPresent(out: DcpDemux.Outcome)
    requires out != DcpDemux.Died
    ensures DcpStream.Present(Handed(out)) == DcpDemux.Yielded(out)
  {
    if !out.Stopped? {
      FlatMapOne(DcpStream.PresentIn, Handed(out)[0]);
    }
  }

  // ---------- What a stream's calls return ----------

  /** From the registration of a stream on, over any run in which the request is answered and the peer does not die,
      and for any calls of `run` that fail no assertion: the answer to the request, then what the calls returned, then
      what the generator and the queue still hold, are exactly the responses to the messages with the stream's opaque,
      in arrival order. */
  lemma CallsReturnOwed(s: DcpDemux.Client, o: nat, op: DcpDemux.Op, retries: nat, rest: seq<DcpDemux.Action>,
                        vb: int, calls: seq<DcpStream.Call>)
    requires s.Valid() && DcpDemux.Runnable(s, [DcpDemux.Handle(o, op, retries)] + rest) && DcpDemux.Dies !in s.trace
    requires var outs := DcpDemux.Run(s, [DcpDemux.Handle(o, op, retries)] + rest).1;
             outs[0].Got? && DcpStream.RunAll(NewStream(vb, o, rest, outs[1..]), calls).1.Some?
    ensures var (t, outs) := DcpDemux.Run(s, [DcpDemux.Handle(o, op, retries)] + rest);
            var (u, rs) := DcpStream.RunAll(NewStream(vb, o, rest, outs[1..]), calls);
            && o in t.ops && |t.trace| <= |s.trace|
            && DcpDemux.Owed(op, o, DcpDemux.Consumed(s, t)) ==
               [outs[0].response] + (rs.value + (DcpStream.Present(u.feed) + t.queues[o]))
            && DcpStream.Rising(0, DcpStream.Seqnos(rs.value))
  {
    var actions := [DcpDemux.Handle(o, op, retries)] + rest;
    var (t, outs) := DcpDemux.Run(s, actions);
    DcpDemux.RoutedFromRegistration(s, o, op, retries, rest);
    DcpDemux.RunAlive(s, actions);
    DeliveredFirst(s, o, op, retries, rest);
    var feed := Feed(o, rest, outs[1..]);
    StreamTakes(vb, feed, calls);
    var (u, rs) := DcpStream.RunAll(NewStream(vb, o, rest, outs[1..]), calls);
    Regroup(outs[0].response, rs.value, DcpStream.Present(u.feed), t.queues[o]);
  }

  function NewStream(vb: int, o: nat, rest: seq<DcpDemux.Action>, outs: seq<DcpDemux.Outcome>): DcpStream.Stream
    requires |rest| == |outs|
  {
    DcpStream.Stream(vb, Feed(o, rest, outs), 0, 0, false)
  }

  lemma Regroup<T>(x: T, a: seq<T>, b: seq<T>, c: seq<T>)
    ensures [x] + (a + b) + c == [x] + (a + (b + c))
  {
  }

  /** The first delivery is the request's answer, the others are the generator's. */
  lemma DeliveredFirst(s: DcpDemux.Client, o: nat, op: DcpDemux.Op, retries: nat, rest: seq<DcpDemux.Action>)
    requires s.Valid() && DcpDemux.Runnable(s, [DcpDemux.Handle(o, op, retries)] + rest)
    requires var outs := DcpDemux.Run(s, [DcpDemux.Handle(o, op, retries)] + rest).1;
             outs[0].Got? && DcpDemux.Died !in outs
    ensures var actions := [DcpDemux.Handle(o, op, retries)] + rest;
            var outs := DcpDemux.Run(s, actions).1;
            DcpDemux.DeliveredTo(o, actions, outs) ==
            [outs[0].response] + DcpStream.Present(Feed(o, rest, outs[1..]))
  {
    var actions := [DcpDemux.Handle(o, op, retries)] + rest;
    var outs := DcpDemux.Run(s, actions).1;
    var (t, out) := DcpDemux.Step(s, actions[0]);
    assert actions[1..] == rest;
    assert outs == [out] + DcpDemux.Run(t, rest).1;
    assert outs[1..] == DcpDemux.Run(t, rest).1;
    FeedDelivered(t, o, rest);
  }

  /** Calls that fail no assertion return the first of what the generator yields and leave the others. */
  lemma StreamTakes(vb: int, feed: seq<Option<Response>>, calls: seq<DcpStream.Call>)
    requires DcpStream.RunAll(DcpStream.Stream(vb, feed, 0, 0, false), calls).1.Some?
    ensures var (u, rs) := DcpStream.RunAll(DcpStream.Stream(vb, feed, 0, 0, false), calls);
            DcpStream.Present(feed) == rs.value + DcpStream.Present(u.feed)
    ensures var rs := DcpStream.RunAll(DcpStream.Stream(vb, feed, 0, 0, false), calls).1;
            DcpStream.Rising(0, DcpStream.Seqnos(rs.value))
  {
    var s := DcpStream.Stream(vb, feed, 0, 0, false);
    DcpStream.RunAllAccepts(s, calls);
    var (u, rs) := DcpStream.RunAll(s, calls);
    FlatMapConcat(DcpStream.PresentIn, DcpStream.Used(s, u), u.feed);
  }

  // ---------- From the producer to the test ----------

  /** The messages with opaque `o` among the events. */
  function Mine(o: nat, events: seq<DcpDemux.Event>): seq<Message> {
    if events == [] then []
    else (if events[0].Arrives? && events[0].msg.tag == o then [events[0].msg] else []) + Mine(o, events[1..])
  }

  function Formatted(format: Message -> Option<Response>, ms: seq<Message>): seq<Response> {
    if ms == [] then []
    else (if format(ms[0]).Some? then [format(ms[0]).value] else []) + Formatted(format, ms[1..])
  }

  lemma {:induction false} FormattedConcat(format: Message -> Option<Response>, a: seq<Message>, b: seq<Message>)
    ensures Formatted(format, a + b) == Formatted(format, a) + Formatted(format, b)
    decreases |a|
  {
    if a == [] {
      assert a + b == b;
    } else {
      FormattedConcat(format, a[1..], b);
      assert (a + b)[1..] == a[1..] + b;
      var x := if format(a[0]).Some? then [format(a[0]).value] else [];
      var y, z := Formatted(format, a[1..]), Formatted(format, b);
      assert x + (y + z) == (x + y) + z;
    }
  }

  lemma {:induction false} OwedMine(op: DcpDemux.Op, o: nat, events: seq<DcpDemux.Event>)
    ensures DcpDemux.Owed(op, o, events) == Formatted(op.format, Mine(o, events))
    decreases |events|
  {
    if events != [] {
      OwedMine(op, o, events[1..]);
      var m := if events[0].Arrives? && events[0].msg.tag == o then [events[0].msg] else [];
      FormattedConcat(op.format, m, Mine(o, events[1..]));
      assert m != [] ==> m[1..] == [];
    }
  }

  /** Message `m` of stream `o` carries the change `c` of a vBucket, with any cas and any other datatype bits. */
  ghost predicate Carries(cfg: DcpDecode.Config, o: nat, vb: nat, m: Message, c: DcpDecode.Change) {
    && DcpDecode.Sendable(cfg, c) && DcpDecode.KnownFlag(c.opcode, c.fields) && DcpDecode.Separable(cfg, c)
    && m.tag == o && m.status == vb && PacketOf(m) == DcpDecode.Encode(cfg, c)
  }

  lemma CarriedFormat(cfg: DcpDecode.Config, onRequest: Message -> Option<Response>, o: nat, vb: nat, m: Message,
                      c: DcpDecode.Change)
    requires Carries(cfg, o, vb, m, c)
    ensures Format(cfg, onRequest)(m) == Some(ResponseOf(vb, DcpDecode.Expected(c)))
  {
    DcpDecode.DecodeEncode(cfg, c);
    assert m.opcode == c.opcode;
  }

  function Promised(vb: nat): DcpDecode.Change -> Response {
    (c: DcpDecode.Change) => ResponseOf(vb, DcpDecode.Expected(c))
  }

  lemma {:induction false} CarriedAll(cfg: DcpDecode.Config, onRequest: Message -> Option<Response>, o: nat, vb: nat,
                                      ms: seq<Message>, cs: seq<DcpDecode.Change>)
    requires |ms| == |cs| && forall i :: 0 <= i < |ms| ==> Carries(cfg, o, vb, ms[i], cs[i])
    ensures Formatted(Format(cfg, onRequest), ms) == Map(Promised(vb), cs)
    decreases |ms|
  {
    if ms != [] {
      CarriedFormat(cfg, onRequest, o, vb, ms[0], cs[0]);
      CarriedAll(cfg, onRequest, o, vb, ms[1..], cs[1..]);
      MapHead(Promised(vb), cs);
    }
  }

  /** End to end: a producer answers the stream request and then sends any messages of the stream, which arrive
      interleaved with those of any other operations. Then what the calls of `run` return is a beginning of exactly
      those messages' contents, field by field and in order, and the rest of them is still with the generator and the
      queue. */
  lemma ProducerToCalls(s: DcpDemux.Client, o: nat, cfg: DcpDecode.Config, onRequest: Message -> Option<Response>,
                        retries: nat, rest: seq<DcpDemux.Action>, vb: nat, calls: seq<DcpStream.Call>,
                        request: Message, ms: seq<Message>, cs: seq<DcpDecode.Change>)
    requires var op := DcpDemux.Op(CMD_STREAM_REQ, Format(cfg, onRequest));
             && s.Valid() && DcpDemux.Runnable(s, [DcpDemux.Handle(o, op, retries)] + rest) && DcpDemux.Dies !in s.trace
             && var (t, outs) := DcpDemux.Run(s, [DcpDemux.Handle(o, op, retries)] + rest);
             && outs[0].Got? && DcpStream.RunAll(NewStream(vb, o, rest, outs[1..]), calls).1.Some?
             && |t.trace| <= |s.trace| && Mine(o, DcpDemux.Consumed(s, t)) == [request] + ms
    requires request.opcode == CMD_STREAM_REQ && onRequest(request).Some?
    requires |ms| == |cs| && forall i :: 0 <= i < |ms| ==> Carries(cfg, o, vb, ms[i], cs[i])
    ensures var op := DcpDemux.Op(CMD_STREAM_REQ, Format(cfg, onRequest));
            var (t, outs) := DcpDemux.Run(s, [DcpDemux.Handle(o, op, retries)] + rest);
            var (u, rs) := DcpStream.RunAll(NewStream(vb, o, rest, outs[1..]), calls);
            && o in t.ops && outs[0].response == onRequest(request).value
            && Map(Promised(vb), cs) == rs.value + (DcpStream.Present(u.feed) + t.queues[o])
            && DcpStream.Rising(0, DcpStream.Seqnos(rs.value))
  {
    var op := DcpDemux.Op(CMD_STREAM_REQ, Format(cfg, onRequest));
    var (t, outs) := DcpDemux.Run(s, [DcpDemux.Handle(o, op, retries)] + rest);
    var (u, rs) := DcpStream.RunAll(NewStream(vb, o, rest, outs[1..]), calls);
    var events := DcpDemux.Consumed(s, t);
    CallsReturnOwed(s, o, op, retries, rest, vb, calls);
    OwedMine(op, o, events);
    CarriedAll(cfg, onRequest, o, vb, ms, cs);
    FormattedConcat(op.format, [request], ms);
    assert [request][1..] == [];
    SameTail(outs[0].response, onRequest(request).value, rs.value + (DcpStream.Present(u.feed) + t.queues[o]),
             Map(Promised(vb), cs));
  }

  lemma SameTail<T>(x: T, y: T, a: seq<T>, b: seq<T>)
    requires [x] + a == [y] + b
    ensures x == y && a == b
  {
    assert ([x] + a)[0] == ([y] + b)[0];
    assert ([x] + a)[1..] == a && ([y] + b)[1..] == b;
  }
}
