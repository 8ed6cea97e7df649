/**
 The DCP client's demultiplexer (lib/dcp_bin_client.py): many operations in flight share one
 socket, and `recv_op` hands each message to the operation waiting for it or parks it on the
 queue of the operation it belongs to. Messages are told apart by their opaque, here `tag`.
 */
module DcpDemux {
  import opened Wrappers
  import opened DcpOpcodes
  import opened DcpMessages

  /** What the next `_recvMsg` does: a message, an exception whose text says the peer died, one whose
      text says Timeout, or any other exception. */
  datatype Event = Arrives(msg: Message) | Dies | TimesOut | Fails

  /** An operation: `format` is its `formated_response`, None when that raises. */
  datatype Op = Op(opcode: nat, format: Message -> Option<Response>)

  /** Got: a formatted message. Died: the stand-in response with status 0xff. Nothing: `None`.
      Stopped: the generator is exhausted. */
  datatype Outcome = Got(response: Response) | Died | Nothing | Stopped

  /** The client: operations by opaque, the queue of each, the sticky timeout flag, the events still
      to come, the stream requests acknowledged, and the stream generators that have finished. */
  datatype Client = Client(
    ops: map<nat, Op>, queues: map<nat, seq<Response>>, timedOut: bool,
    trace: seq<Event>, acks: seq<nat>, closed: set<nat>)
  {
    ghost predicate Valid() {
      ops.Keys == queues.Keys
    }

    function Read(): Client
      requires trace != []
    {
      this.(trace := trace[1..])
    }
  }

  /** Waiting for a response to `o`. A message for no registered operation is skipped (flow control),
      acknowledged (stream request), or ends the wait: the name of the NOOP opcode is not defined,
      so comparing with it raises. */
  function RecvOp(s: Client, o: nat): (r: (Client, Outcome))
    requires s.Valid() && o in s.ops
    ensures r.0.Valid() && r.0.ops == s.ops && r.0.closed == s.closed && r.1 != Stopped
    decreases |s.trace|
  {
    if s.timedOut || s.trace == [] then (s, Nothing)
    else
      match s.trace[0]
      case Dies => (s.Read(), Died)
      case TimesOut => (s.Read().(timedOut := true), Nothing)
      case Fails => (s.Read(), Nothing)
      case Arrives(m) =>
        if m.tag == o then
          (s.Read(), match s.ops[o].format(m) { case Some(r) => Got(r) case None => Nothing })
        else if m.tag in s.ops then
          (match s.ops[m.tag].format(m)
           case Some(r) => RecvOp(s.Read().(queues := s.queues[m.tag := s.queues[m.tag] + [r]]), o)
           case None => (s.Read(), Nothing))
        else if m.opcode == CMD_FLOW_CONTROL then RecvOp(s.Read(), o)
        else if m.opcode == CMD_STREAM_REQ then RecvOp(s.Read().(acks := s.acks + [m.tag]), o)
        else (s.Read(), Nothing)
  }

  function Retry(s: Client, o: nat, retries: nat): (r: (Client, Outcome))
    requires s.Valid() && o in s.ops
    ensures r.0.Valid() && r.0.ops == s.ops && r.0.closed == s.closed && r.1 != Stopped
    decreases retries
  {
    if retries == 0 then (s, Nothing)
    else
      var (t, out) := RecvOp(s, o);
      if out != Nothing then (t, out) else Retry(t, o, retries - 1)
  }

  /** Registering an operation, with its empty queue. */
  function Registered(s: Client, o: nat, op: Op): Client {
    s.(ops := s.ops[o := op], queues := s.queues[o := []])
  }

  /** One resumption of the generator of a stream: its queue first, then the socket. */
  function Next(s: Client, o: nat): (r: (Client, Outcome))
    requires s.Valid() && o in s.ops
    ensures r.0.Valid() && r.0.ops == s.ops
  {
    if o in s.closed then (s, Stopped)
    else
      var (t, out) :=
        if s.queues[o] != [] then (s.(queues := s.queues[o := s.queues[o][1..]]), Got(s.queues[o][0]))
        else RecvOp(s, o);
      if out.Got? && out.response.opcode == CMD_STREAM_END then (t.(closed := t.closed + {o}), out)
      else (t, out)
  }

  // ---------- Runs ----------

  /** `_handle_op` on a new operation, or one step of the generator of a registered stream. */
  datatype Action = Handle(tag: nat, op: Op, retries: nat) | Pull(tag: nat)

  /** Opaques are distinct, and only registered streams are pulled. */
  predicate Enabled(s: Client, a: Action) {
    match a
    case Handle(o, _, _) => o !in s.ops && o !in s.closed
    case Pull(o) => o in s.ops
  }

  function Step(s: Client, a: Action): (r: (Client, Outcome))
    requires s.Valid() && Enabled(s, a)
    ensures r.0.Valid()
  {
    match a
    case Handle(o, op, retries) => Retry(Registered(s, o, op), o, retries)
    case Pull(o) => Next(s, o)
  }

  predicate Runnable(s: Client, actions: seq<Action>)
    requires s.Valid()
    decreases |actions|
  {
    actions == [] || (Enabled(s, actions[0]) && Runnable(Step(s, actions[0]).0, actions[1..]))
  }

  /** A whole run: the final client, and the outcome of every action. */
  function Run(s: Client, actions: seq<Action>): (r: (Client, seq<Outcome>))
    requires s.Valid() && Runnable(s, actions)
    ensures r.0.Valid() && |r.1| == |actions|
    decreases |actions|
  {
    if actions == [] then (s, [])
    else
      var (t, out) := Step(s, actions[0]);
      var (u, outs) := Run(t, actions[1..]);
      (u, [out] + outs)
  }

  // ---------- The specification: what each operation is owed ----------

  /** The responses `op`, registered as `o`, is owed for these events: those of the messages carrying
      its tag, in arrival order. A message its formatter rejects yields none. */
  function Owed(op: Op, o: nat, events: seq<Event>): seq<Response> {
    if events == [] then []
    else Owing(op, o, events[0]) + Owed(op, o, events[1..])
  }

  function Owing(op: Op, o: nat, e: Event): seq<Response> {
    if e.Arrives? && e.msg.tag == o && op.format(e.msg).Some? then [op.format(e.msg).value] else []
  }

  /** The responses the actions on `o` gave their callers. */
  function DeliveredTo(o: nat, actions: seq<Action>, outs: seq<Outcome>): seq<Response>
    requires |actions| == |outs|
  {
    if actions == [] then []
    else
      (if actions[0].tag == o && outs[0].Got? then [outs[0].response] else [])
      + DeliveredTo(o, actions[1..], outs[1..])
  }

  /** The events read between two states of one client. */
  function Consumed(s: Client, t: Client): seq<Event>
    requires |t.trace| <= |s.trace|
  {
    s.trace[..|s.trace| - |t.trace|]
  }

  function Yielded(out: Outcome): seq<Response> {
    if out.Got? then [out.response] else []
  }

  // ---------- Proofs ----------

  lemma {:induction false} OwedConcat(op: Op, o: nat, a: seq<Event>, b: seq<Event>)
    ensures Owed(op, o, a + b) == Owed(op, o, a) + Owed(op, o, b)
  {
    if a == [] {
      assert a + b == b;
    } else {
      var x := Owing(op, o, a[0]);
      calc {
        Owed(op, o, a + b);
        { assert a + b == [a[0]] + (a[1..] + b); }
        x + Owed(op, o, a[1..] + b);
        { OwedConcat(op, o, a[1..], b); }
        x + (Owed(op, o, a[1..]) + Owed(op, o, b));
        (x + Owed(op, o, a[1..])) + Owed(op, o, b);
      }
    }
  }

  /** `t` follows from `s`: it read a prefix of the events, and what `p` got meanwhile, followed by its
      queue, is its old queue followed by what it is owed for the events read. */
  ghost predicate Keeps(s: Client, t: Client, p: nat, got: seq<Response>)
    requires s.Valid() && t.Valid() && p in s.ops && p in t.ops
  {
    && |t.trace| <= |s.trace|
    && s.trace == Consumed(s, t) + t.trace
    && t.ops[p] == s.ops[p]
    && got + t.queues[p] == s.queues[p] + Owed(s.ops[p], p, Consumed(s, t))
  }

  lemma Splice<T>(a: seq<T>, b: seq<T>, q: seq<T>, q': seq<T>, q'': seq<T>, x: seq<T>, y: seq<T>)
    requires a + q' == q + x && b + q'' == q' + y
    ensures (a + b) + q'' == q + (x + y)
  {
    calc {
      (a + b) + q'';
      a + (b + q'');
      a + (q' + y);
      (a + q') + y;
      (q + x) + y;
      q + (x + y);
    }
  }

  lemma ConsumedTrans(s: Client, t: Client, u: Client)
    requires |u.trace| <= |t.trace| <= |s.trace|
    requires s.trace == Consumed(s, t) + t.trace && t.trace == Consumed(t, u) + u.trace
    ensures Consumed(s, u) == Consumed(s, t) + Consumed(t, u)
    ensures s.trace == Consumed(s, u) + u.trace
  {
  }

  lemma KeepsTrans(s: Client, t: Client, u: Client, p: nat, a: seq<Response>, b: seq<Response>)
    requires s.Valid() && t.Valid() && u.Valid() && p in s.ops && p in t.ops && p in u.ops
    requires Keeps(s, t, p, a) && Keeps(t, u, p, b)
    ensures Keeps(s, u, p, a + b)
  {
    var op := s.ops[p];
    ConsumedTrans(s, t, u);
    OwedConcat(op, p, Consumed(s, t), Consumed(t, u));
    Splice(a, b, s.queues[p], t.queues[p], u.queues[p],
           Owed(op, p, Consumed(s, t)), Owed(op, p, Consumed(t, u)));
  }

  /** Reading one event and giving `p` its due, directly or on its queue. */
  lemma KeepsOne(s: Client, t: Client, p: nat, got: seq<Response>)
    requires s.Valid() && t.Valid() && p in s.ops && p in t.ops
    requires s.trace != [] && t.trace == s.trace[1..] && t.ops[p] == s.ops[p]
    requires got + t.queues[p] == s.queues[p] + Owing(s.ops[p], p, s.trace[0])
    ensures Keeps(s, t, p, got)
  {
    assert Consumed(s, t) == [s.trace[0]];
    assert Owed(s.ops[p], p, [s.trace[0]]) == Owing(s.ops[p], p, s.trace[0]);
  }

  /** Events a wait for `o` reads past. */
  predicate Passed(ops: map<nat, Op>, o: nat, e: Event) {
    && e.Arrives? && e.msg.tag != o
    && if e.msg.tag in ops then ops[e.msg.tag].format(e.msg).Some?
       else e.msg.opcode == CMD_FLOW_CONTROL || e.msg.opcode == CMD_STREAM_REQ
  }

  /** The client after reading past a message. */
  function Past(s: Client, m: Message): Client
    requires s.Valid() && s.trace != []
  {
    if m.tag in s.ops then
      match s.ops[m.tag].format(m)
      case Some(r) => s.Read().(queues := s.queues[m.tag := s.queues[m.tag] + [r]])
      case None => s.Read()
    else if m.opcode == CMD_STREAM_REQ then s.Read().(acks := s.acks + [m.tag])
    else s.Read()
  }

  lemma PastGoesOn(s: Client, o: nat)
    requires s.Valid() && o in s.ops && !s.timedOut && s.trace != [] && Passed(s.ops, o, s.trace[0])
    ensures var u := Past(s, s.trace[0].msg);
            && u.Valid() && u.ops == s.ops && !u.timedOut && u.trace == s.trace[1..] && u.queues[o] == s.queues[o]
            && RecvOp(s, o) == RecvOp(u, o)
  {
  }

  lemma PastKeeps(s: Client, o: nat, p: nat)
    requires s.Valid() && p in s.ops && s.trace != [] && Passed(s.ops, o, s.trace[0])
    ensures var u := Past(s, s.trace[0].msg);
            u.Valid() && p in u.ops && Keeps(s, u, p, [])
  {
    var u := Past(s, s.trace[0].msg);
    assert [] + u.queues[p] == s.queues[p] + Owing(s.ops[p], p, s.trace[0]);
    KeepsOne(s, u, p, []);
  }

  /** Waiting for `o` gives `o` the first thing it is owed and parks everything else where it belongs. */
  lemma {:induction false} RecvOpKeeps(s: Client, o: nat, p: nat)
    requires s.Valid() && o in s.ops && p in s.ops
    requires o == p ==> s.queues[p] == []
    ensures Keeps(s, RecvOp(s, o).0, p, if o == p then Yielded(RecvOp(s, o).1) else [])
    ensures o == p ==> RecvOp(s, o).0.queues[p] == []
    decreases |s.trace|
  {
    var (t, out) := RecvOp(s, o);
    var got := if o == p then Yielded(out) else [];
    if s.timedOut || s.trace == [] {
      assert Consumed(s, t) == [];
    } else if Passed(s.ops, o, s.trace[0]) {
      var u := Past(s, s.trace[0].msg);
      PastGoesOn(s, o);
      PastKeeps(s, o, p);
      RecvOpKeeps(u, o, p);
      KeepsTrans(s, u, t, p, [], got);
      assert [] + got == got;
    } else {
      StopKeeps(s, o, p);
    }
  }

  lemma StopKeeps(s: Client, o: nat, p: nat)
    requires s.Valid() && o in s.ops && p in s.ops && !s.timedOut && s.trace != [] && !Passed(s.ops, o, s.trace[0])
    requires o == p ==> s.queues[p] == []
    ensures Keeps(s, RecvOp(s, o).0, p, if o == p then Yielded(RecvOp(s, o).1) else [])
    ensures RecvOp(s, o).0.queues == s.queues
  {
    StopResult(s, o);
    if p != o { OnlyWaiterOwed(s, o, p); }
    var (t, out) := RecvOp(s, o);
    var got, due := if o == p then Yielded(out) else [], Owing(s.ops[p], p, s.trace[0]);
    assert got == due;
    assert got + t.queues[p] == s.queues[p] + due;
    KeepsOne(s, t, p, got);
  }

  /** For the event that ends a wait, only the operation waiting can be owed anything. */
  lemma OnlyWaiterOwed(s: Client, o: nat, p: nat)
    requires o in s.ops && p in s.ops && p != o && s.trace != [] && !Passed(s.ops, o, s.trace[0])
    ensures Owing(s.ops[p], p, s.trace[0]) == []
  {
  }

  lemma StopResult(s: Client, o: nat)
    requires s.Valid() && o in s.ops && !s.timedOut && s.trace != [] && !Passed(s.ops, o, s.trace[0])
    ensures RecvOp(s, o).0.trace == s.trace[1..] && RecvOp(s, o).0.queues == s.queues
    ensures Yielded(RecvOp(s, o).1) == Owing(s.ops[o], o, s.trace[0])
  {
    var e := s.trace[0];
    if e.Arrives? {
      if e.msg.tag == o {
        assert RecvOp(s, o).0 == s.Read();
      } else {
        assert RecvOp(s, o) == (s.Read(), Nothing);
      }
    }
  }

  lemma {:induction false} RetryKeeps(s: Client, o: nat, retries: nat, p: nat)
    requires s.Valid() && o in s.ops && p in s.ops
    requires o == p ==> s.queues[p] == []
    ensures Keeps(s, Retry(s, o, retries).0, p, if o == p then Yielded(Retry(s, o, retries).1) else [])
    decreases retries
  {
    if retries == 0 {
      assert Consumed(s, s) == [];
    } else {
      RecvOpKeeps(s, o, p);
      var (t, out) := RecvOp(s, o);
      if out == Nothing {
        RetryKeeps(t, o, retries - 1, p);
        var (u, out') := Retry(t, o, retries - 1);
        var got := if o == p then Yielded(out') else [];
        KeepsTrans(s, t, u, p, [], got);
        assert [] + got == got;
      }
    }
  }

  lemma NextKeeps(s: Client, o: nat, p: nat)
    requires s.Valid() && o in s.ops && p in s.ops
    ensures Keeps(s, Next(s, o).0, p, if o == p then Yielded(Next(s, o).1) else [])
  {
    if o in s.closed || s.queues[o] != [] {
      assert Consumed(s, s) == [];
      assert o !in s.closed ==> [s.queues[o][0]] + s.queues[o][1..] == s.queues[o];
    } else {
      RecvOpKeeps(s, o, p);
    }
  }

  lemma StepKeeps(s: Client, a: Action, p: nat)
    requires s.Valid() && Enabled(s, a) && p in s.ops
    ensures p in Step(s, a).0.ops
    ensures Keeps(s, Step(s, a).0, p, if a.tag == p then Yielded(Step(s, a).1) else [])
  {
    match a {
      case Handle(o, op, retries) =>
        var r := Registered(s, o, op);
        RetryKeeps(r, o, retries, p);
        assert Consumed(s, Step(s, a).0) == Consumed(r, Step(s, a).0);
      case Pull(o) =>
        NextKeeps(s, o, p);
    }
  }

  /** Over every run, however streams and commands interleave: what a registered operation has been
      given, followed by what waits on its queue, is what already waited, followed by what it is owed
      for the events read - nothing lost, duplicated, reordered or misrouted. */
  lemma {:induction false} RunKeeps(s: Client, actions: seq<Action>, p: nat)
    requires s.Valid() && Runnable(s, actions) && p in s.ops
    ensures p in Run(s, actions).0.ops
    ensures Keeps(s, Run(s, actions).0, p, DeliveredTo(p, actions, Run(s, actions).1))
    decreases |actions|
  {
    if actions == [] {
      assert Consumed(s, s) == [];
    } else {
      var (t, out) := Step(s, actions[0]);
      StepKeeps(s, actions[0], p);
      RunKeeps(t, actions[1..], p);
      var (u, outs) := Run(t, actions[1..]);
      var all := Run(s, actions).1;
      assert all[1..] == outs;
      var got := if actions[0].tag == p then Yielded(out) else [];
      KeepsTrans(s, t, u, p, got, DeliveredTo(p, actions[1..], outs));
    }
  }

  /** From its registration on, an operation's deliveries followed by its queue are exactly the
      responses of the messages carrying its opaque, in arrival order. */
  lemma RoutedFromRegistration(s: Client, o: nat, op: Op, retries: nat, rest: seq<Action>)
    requires s.Valid()
    requires Runnable(s, [Handle(o, op, retries)] + rest)
    ensures var actions := [Handle(o, op, retries)] + rest;
            var (t, outs) := Run(s, actions);
            && o in t.ops && |t.trace| <= |s.trace|
            && s.trace == Consumed(s, t) + t.trace
            && DeliveredTo(o, actions, outs) + t.queues[o] == Owed(op, o, Consumed(s, t))
  {
    var actions := [Handle(o, op, retries)] + rest;
    var (t, outs) := Run(s, actions);
    var r := Registered(s, o, op);
    var (u, out) := Step(s, actions[0]);
    RetryKeeps(r, o, retries, o);
    assert actions[1..] == rest;
    RunKeeps(u, rest, o);
    assert outs[1..] == Run(u, rest).1;
    KeepsTrans(r, u, t, o, Yielded(out), DeliveredTo(o, rest, outs[1..]));
    assert Consumed(s, t) == Consumed(r, t);
    assert [] + Owed(op, o, Consumed(r, t)) == Owed(op, o, Consumed(r, t));
  }

  function Matching(o: nat, events: seq<Event>): nat {
    if events == [] then 0
    else (if events[0].Arrives? && events[0].msg.tag == o then 1 else 0) + Matching(o, events[1..])
  }

  /** A message is lost only when its own operation's formatter rejects it. */
  lemma {:induction false} LostOnlyIfMalformed(op: Op, o: nat, events: seq<Event>)
    ensures |Owed(op, o, events)| <= Matching(o, events)
    ensures |Owed(op, o, events)| == Matching(o, events) <==>
            forall e :: e in events && e.Arrives? && e.msg.tag == o ==> op.format(e.msg).Some?
  {
    if events != [] {
      LostOnlyIfMalformed(op, o, events[1..]);
      assert events == [events[0]] + events[1..];
    }
  }

  /** Nothing is owed exactly when the formatter rejects every message with the operation's opaque. */
  lemma {:induction false} NothingOwedIff(op: Op, o: nat, events: seq<Event>)
    ensures Owed(op, o, events) == [] <==>
            forall e :: e in events && e.Arrives? && e.msg.tag == o ==> op.format(e.msg).None?
    decreases |events|
  {
    if events != [] {
      NothingOwedIff(op, o, events[1..]);
      assert events == [events[0]] + events[1..];
    }
  }

  /** An operation is given no response and has none waiting, over any run, if and only if its formatter rejects
      every message with its opaque that was read. */
  lemma NothingGivenIff(s: Client, o: nat, op: Op, retries: nat, rest: seq<Action>)
    requires s.Valid() && Runnable(s, [Handle(o, op, retries)] + rest)
    ensures var actions := [Handle(o, op, retries)] + rest;
            var (t, outs) := Run(s, actions);
            && o in t.ops && |t.trace| <= |s.trace|
            && (DeliveredTo(o, actions, outs) == [] && t.queues[o] == [] <==>
                forall e :: e in Consumed(s, t) && e.Arrives? && e.msg.tag == o ==> op.format(e.msg).None?)
  {
    var actions := [Handle(o, op, retries)] + rest;
    var (t, outs) := Run(s, actions);
    RoutedFromRegistration(s, o, op, retries, rest);
    NothingOwedIff(op, o, Consumed(s, t));
    assert DeliveredTo(o, actions, outs) + t.queues[o] == [] <==>
           DeliveredTo(o, actions, outs) == [] && t.queues[o] == [];
  }

  /** So an operation whose formatter always raises, as that of an add-stream request does, never gets a response. */
  lemma RejectingNeverGiven(s: Client, o: nat, op: Op, retries: nat, rest: seq<Action>)
    requires s.Valid() && Runnable(s, [Handle(o, op, retries)] + rest) && forall m :: op.format(m) == None
    ensures var actions := [Handle(o, op, retries)] + rest;
            var (t, outs) := Run(s, actions);
            o in t.ops && DeliveredTo(o, actions, outs) == [] && t.queues[o] == []
  {
    NothingGivenIff(s, o, op, retries, rest);
  }

  // ---------- When the peer does not die ----------

  lemma {:induction false} RecvOpAlive(s: Client, o: nat)
    requires s.Valid() && o in s.ops && Dies !in s.trace
    ensures RecvOp(s, o).1 != Died && Dies !in RecvOp(s, o).0.trace
    decreases |s.trace|
  {
    if !s.timedOut && s.trace != [] {
      assert s.trace == [s.trace[0]] + s.trace[1..];
      if Passed(s.ops, o, s.trace[0]) {
        PastGoesOn(s, o);
        RecvOpAlive(Past(s, s.trace[0].msg), o);
      } else {
        StopResult(s, o);
      }
    }
  }

  lemma {:induction false} RetryAlive(s: Client, o: nat, retries: nat)
    requires s.Valid() && o in s.ops && Dies !in s.trace
    ensures Retry(s, o, retries).1 != Died && Dies !in Retry(s, o, retries).0.trace
    decreases retries
  {
    if retries > 0 {
      RecvOpAlive(s, o);
      var (t, out) := RecvOp(s, o);
      if out == Nothing {
        RetryAlive(t, o, retries - 1);
      }
    }
  }

  lemma StepAlive(s: Client, a: Action)
    requires s.Valid() && Enabled(s, a) && Dies !in s.trace
    ensures Step(s, a).1 != Died && Dies !in Step(s, a).0.trace
  {
    match a
    case Handle(o, op, retries) => RetryAlive(Registered(s, o, op), o, retries);
    case Pull(o) => RecvOpAlive(s, o);
  }

  /** Without such an exception no action yields the stand-in response. */
  lemma {:induction false} RunAlive(s: Client, actions: seq<Action>)
    requires s.Valid() && Runnable(s, actions) && Dies !in s.trace
    ensures Died !in Run(s, actions).1
    decreases |actions|
  {
    if actions != [] {
      StepAlive(s, actions[0]);
      RunAlive(Step(s, actions[0]).0, actions[1..]);
    }
  }

  // ---------- When a wait succeeds ----------

  function PassedPrefix(ops: map<nat, Op>, o: nat, events: seq<Event>): (k: nat)
    ensures k <= |events|
    ensures forall i :: 0 <= i < k ==> Passed(ops, o, events[i])
    ensures k < |events| ==> !Passed(ops, o, events[k])
  {
    if events == [] || !Passed(ops, o, events[0]) then 0 else 1 + PassedPrefix(ops, o, events[1..])
  }

  /** A wait reads up to and including the first event it cannot pass, and yields a response exactly
      when that event is a message for `o` that its formatter accepts. */
  lemma {:induction false} WaitStopsAt(s: Client, o: nat)
    requires s.Valid() && o in s.ops && !s.timedOut
    ensures var k := PassedPrefix(s.ops, o, s.trace);
            var (t, out) := RecvOp(s, o);
            && t.trace == s.trace[if k < |s.trace| then k + 1 else k..]
            && (out.Got? <==> k < |s.trace| && Owing(s.ops[o], o, s.trace[k]) != [])
            && (out.Got? ==> Owing(s.ops[o], o, s.trace[k]) == [out.response])
            && (out.Died? <==> k < |s.trace| && s.trace[k].Dies?)
    decreases |s.trace|
  {
    if s.trace != [] && Passed(s.ops, o, s.trace[0]) {
      PastGoesOn(s, o);
      WaitStopsAt(Past(s, s.trace[0].msg), o);
    }
  }

  /** A server NOOP ends a wait empty-handed, even with the awaited response right behind it. */
  lemma {:induction false} NoopEndsWait(s: Client, o: nat, noop: Message)
    requires s.Valid() && o in s.ops && !s.timedOut
    requires s.trace != [] && s.trace[0] == Arrives(noop)
    requires noop.tag !in s.ops && noop.opcode == CMD_UPR_NOOP
    ensures RecvOp(s, o).1 == Nothing && RecvOp(s, o).0.trace == s.trace[1..]
  {
  }

  // ---------- The timeout flag ----------

  /** A run sets the flag exactly when it reads a timeout. */
  ghost predicate Flagged(s: Client, t: Client) {
    && |t.trace| <= |s.trace| && s.trace == Consumed(s, t) + t.trace
    && (t.timedOut <==> s.timedOut || TimesOut in Consumed(s, t))
  }

  lemma FlaggedTrans(s: Client, t: Client, u: Client)
    requires Flagged(s, t) && Flagged(t, u)
    ensures Flagged(s, u)
  {
    ConsumedTrans(s, t, u);
  }

  lemma StopLeaves(s: Client, o: nat)
    requires s.Valid() && o in s.ops && !s.timedOut && s.trace != [] && !Passed(s.ops, o, s.trace[0])
    ensures RecvOp(s, o).0.timedOut == s.trace[0].TimesOut? && RecvOp(s, o).0.acks == s.acks
  {
    var e := s.trace[0];
    if e.Arrives? && e.msg.tag != o {
      assert RecvOp(s, o) == (s.Read(), Nothing);
    }
  }

  /** A wait that is not cut short sets the flag if and only if the event that stops it is a timeout. */
  lemma {:induction false} WaitFlags(s: Client, o: nat)
    requires s.Valid() && o in s.ops && !s.timedOut
    ensures var k := PassedPrefix(s.ops, o, s.trace);
            RecvOp(s, o).0.timedOut == (k < |s.trace| && s.trace[k].TimesOut?)
    decreases |s.trace|
  {
    if s.trace != [] {
      if Passed(s.ops, o, s.trace[0]) {
        PastGoesOn(s, o);
        WaitFlags(Past(s, s.trace[0].msg), o);
      } else {
        StopLeaves(s, o);
      }
    }
  }

  /** It acknowledges, in order, exactly the stream requests of no registered operation that it passes. */
  lemma {:induction false} WaitAcks(s: Client, o: nat)
    requires s.Valid() && o in s.ops && !s.timedOut
    ensures RecvOp(s, o).0.acks == s.acks + Acknowledged(s.ops, s.trace[..PassedPrefix(s.ops, o, s.trace)])
    decreases |s.trace|
  {
    if s.trace != [] && Passed(s.ops, o, s.trace[0]) {
      var u, k := Past(s, s.trace[0].msg), PassedPrefix(s.ops, o, s.trace);
      PastGoesOn(s, o);
      WaitAcks(u, o);
      AcknowledgedCons(s.ops, s.trace, k);
      PastAcks(s, o);
      var x, y := Acknowledgement(s.ops, s.trace[0]), Acknowledged(s.ops, s.trace[1..][..k - 1]);
      assert s.acks + x + y == s.acks + (x + y);
    } else {
      assert s.acks + [] == s.acks;
      if s.trace != [] { StopLeaves(s, o); }
    }
  }

  lemma PastAcks(s: Client, o: nat)
    requires s.Valid() && s.trace != [] && Passed(s.ops, o, s.trace[0])
    ensures Past(s, s.trace[0].msg).acks == s.acks + Acknowledgement(s.ops, s.trace[0])
  {
    assert s.acks + [] == s.acks;
  }

  lemma AcknowledgedCons(ops: map<nat, Op>, events: seq<Event>, k: nat)
    requires 0 < k <= |events|
    ensures Acknowledged(ops, events[..k]) == Acknowledgement(ops, events[0]) + Acknowledged(ops, events[1..][..k - 1])
  {
    assert events[..k][1..] == events[1..][..k - 1];
  }

  /** The stream requests of no registered operation, which are acknowledged. */
  function Acknowledgement(ops: map<nat, Op>, e: Event): seq<nat> {
    if e.Arrives? && e.msg.tag !in ops && e.msg.opcode == CMD_STREAM_REQ then [e.msg.tag] else []
  }

  function Acknowledged(ops: map<nat, Op>, events: seq<Event>): seq<nat> {
    if events == [] then [] else Acknowledgement(ops, events[0]) + Acknowledged(ops, events[1..])
  }

  /** Among the events that a wait reads only the one that stops it can be a timeout. */
  lemma TimeoutRead(ops: map<nat, Op>, o: nat, events: seq<Event>, n: nat)
    requires var k := PassedPrefix(ops, o, events); n == if k < |events| then k + 1 else k
    ensures TimesOut in events[..n] <==>
            PassedPrefix(ops, o, events) < |events| && events[PassedPrefix(ops, o, events)].TimesOut?
  {
    var k := PassedPrefix(ops, o, events);
    assert forall i :: 0 <= i < k ==> events[..n][i] == events[i] && Passed(ops, o, events[i]);
    assert k < |events| ==> events[..n][k] == events[k];
  }

  lemma FlaggedBy(s: Client, t: Client, n: nat)
    requires !s.timedOut && n <= |s.trace| && t.trace == s.trace[n..] && (t.timedOut <==> TimesOut in s.trace[..n])
    ensures Flagged(s, t)
  {
    assert Consumed(s, t) == s.trace[..n];
  }

  lemma RecvOpFlags(s: Client, o: nat)
    requires s.Valid() && o in s.ops
    ensures Flagged(s, RecvOp(s, o).0)
    ensures s.timedOut ==> RecvOp(s, o) == (s, Nothing)
  {
    if s.timedOut {
      assert Consumed(s, s) == [];
    } else {
      var k := PassedPrefix(s.ops, o, s.trace);
      var n := if k < |s.trace| then k + 1 else k;
      WaitStopsAt(s, o);
      WaitFlags(s, o);
      TimeoutRead(s.ops, o, s.trace, n);
      FlaggedBy(s, RecvOp(s, o).0, n);
    }
  }

  lemma {:induction false} RetryFlags(s: Client, o: nat, retries: nat)
    requires s.Valid() && o in s.ops
    ensures Flagged(s, Retry(s, o, retries).0)
    ensures s.timedOut ==> Retry(s, o, retries) == (s, Nothing)
    decreases retries
  {
    if retries == 0 {
      assert Consumed(s, s) == [];
    } else {
      RecvOpFlags(s, o);
      var (t, out) := RecvOp(s, o);
      if out == Nothing {
        RetryFlags(t, o, retries - 1);
        FlaggedTrans(s, t, Retry(t, o, retries - 1).0);
      }
    }
  }

  lemma NextFlags(s: Client, o: nat)
    requires s.Valid() && o in s.ops
    ensures Flagged(s, Next(s, o).0)
  {
    if o in s.closed || s.queues[o] != [] {
      assert Consumed(s, Next(s, o).0) == [];
    } else {
      RecvOpFlags(s, o);
      assert Consumed(s, Next(s, o).0) == Consumed(s, RecvOp(s, o).0);
    }
  }

  lemma StepFlags(s: Client, a: Action)
    requires s.Valid() && Enabled(s, a)
    ensures Flagged(s, Step(s, a).0)
  {
    match a {
      case Handle(o, op, retries) =>
        RetryFlags(Registered(s, o, op), o, retries);
        assert Consumed(s, Step(s, a).0) == Consumed(Registered(s, o, op), Step(s, a).0);
      case Pull(o) =>
        NextFlags(s, o);
    }
  }

  /** Over every run the flag holds at the end exactly if it held before or a timeout is among the events read. */
  lemma {:induction false} RunFlags(s: Client, actions: seq<Action>)
    requires s.Valid() && Runnable(s, actions)
    ensures Flagged(s, Run(s, actions).0)
    decreases |actions|
  {
    if actions == [] {
      assert Consumed(s, s) == [];
    } else {
      var t := Step(s, actions[0]).0;
      StepFlags(s, actions[0]);
      RunFlags(t, actions[1..]);
      FlaggedTrans(s, t, Run(t, actions[1..]).0);
    }
  }

  /** Once the flag holds, a new operation gets nothing, and a stream gets what waits on its queue and then nothing,
      or has stopped. */
  predicate Silenced(s: Client, a: Action, out: Outcome)
    requires s.ops.Keys == s.queues.Keys && Enabled(s, a)
  {
    match a
    case Handle(_, _, _) => out == Nothing
    case Pull(o) =>
      if o in s.closed then out == Stopped
      else if s.queues[o] != [] then out == Got(s.queues[o][0])
      else out == Nothing
  }

  lemma StepSilent(s: Client, a: Action)
    requires s.Valid() && Enabled(s, a) && s.timedOut
    ensures Silenced(s, a, Step(s, a).1) && Step(s, a).0.trace == s.trace && Step(s, a).0.timedOut
  {
    match a {
      case Handle(o, op, retries) => RetryFlags(Registered(s, o, op), o, retries);
      case Pull(o) => RecvOpFlags(s, o);
    }
  }

  /** After a timeout no event is read any more along any run, and the k-th action gives what silence allows. */
  lemma {:induction false} RunSilent(s: Client, actions: seq<Action>, k: nat)
    requires s.Valid() && Runnable(s, actions) && s.timedOut && k < |actions|
    ensures Run(s, actions).0.trace == s.trace
    ensures Runnable(s, actions[..k]) && Enabled(Run(s, actions[..k]).0, actions[k])
    ensures Silenced(Run(s, actions[..k]).0, actions[k], Run(s, actions).1[k])
    decreases |actions|
  {
    StepSilent(s, actions[0]);
    var t := Step(s, actions[0]).0;
    if k > 0 {
      RunSilent(t, actions[1..], k - 1);
      assert actions[..k][1..] == actions[1..][..k - 1];
    } else if |actions| > 1 {
      RunSilent(t, actions[1..], 0);
    }
  }

  // ---------- How many waits an operation is given ----------

  /** The events that each end a wait for `o`. */
  function Stops(ops: map<nat, Op>, o: nat, events: seq<Event>): seq<Event> {
    if events == [] then []
    else (if Passed(ops, o, events[0]) then [] else [events[0]]) + Stops(ops, o, events[1..])
  }

  /** What a wait that ends at `e` gives. */
  function Given(op: Op, o: nat, e: Event): Outcome {
    if e.Dies? then Died
    else if Owing(op, o, e) != [] then Got(Owing(op, o, e)[0])
    else Nothing
  }

  /** The outcome of `retries` waits that end at the given events: the first that gives something, unless a timeout
      comes before it. */
  function FirstGiven(op: Op, o: nat, stops: seq<Event>, retries: nat): Outcome
    decreases retries
  {
    if retries == 0 || stops == [] || stops[0].TimesOut? then Nothing
    else if Given(op, o, stops[0]) != Nothing then Given(op, o, stops[0])
    else FirstGiven(op, o, stops[1..], retries - 1)
  }

  lemma {:induction false} StopsAfter(ops: map<nat, Op>, o: nat, events: seq<Event>)
    ensures var k := PassedPrefix(ops, o, events);
            Stops(ops, o, events) == if k < |events| then [events[k]] + Stops(ops, o, events[k + 1..]) else []
    decreases |events|
  {
    if events != [] && Passed(ops, o, events[0]) {
      StopsAfter(ops, o, events[1..]);
      var k := PassedPrefix(ops, o, events[1..]);
      assert k < |events[1..]| ==> events[1..][k + 1..] == events[k + 2..];
    } else if events != [] {
      assert events[0 + 1..] == events[1..];
    }
  }

  /** One wait uses up one of those events. */
  lemma OneWait(s: Client, o: nat)
    requires s.Valid() && o in s.ops && !s.timedOut
    ensures var (t, out) := RecvOp(s, o);
            var stops := Stops(s.ops, o, s.trace);
            if stops == [] then out == Nothing && !t.timedOut && Stops(s.ops, o, t.trace) == []
            else out == Given(s.ops[o], o, stops[0]) && t.timedOut == stops[0].TimesOut?
                 && Stops(s.ops, o, t.trace) == stops[1..]
  {
    WaitStopsAt(s, o);
    WaitFlags(s, o);
    StopsAfter(s.ops, o, s.trace);
  }

  /** A new operation succeeds exactly when, among the first `retries` events that end a wait for it, one gives
      something before any timeout. */
  lemma {:induction false} RetryGives(s: Client, o: nat, retries: nat)
    requires s.Valid() && o in s.ops && !s.timedOut
    ensures Retry(s, o, retries).1 == FirstGiven(s.ops[o], o, Stops(s.ops, o, s.trace), retries)
    decreases retries
  {
    if retries > 0 {
      OneWait(s, o);
      var (t, out) := RecvOp(s, o);
      if out == Nothing {
        if t.timedOut {
          RetryFlags(t, o, retries - 1);
        } else {
          RetryGives(t, o, retries - 1);
        }
      }
    }
  }

  // ---------- When a generator has stopped ----------

  /** Along a run, a generator that was not stopped before is stopped exactly if it has handed out the end of its
      stream. */
  lemma {:induction false} RunCloses(s: Client, actions: seq<Action>, o: nat)
    requires s.Valid() && Runnable(s, actions)
    ensures o in Run(s, actions).0.closed <==>
            o in s.closed || exists k :: 0 <= k < |actions| && HandsOutEnd(o, actions[k], Run(s, actions).1[k])
    decreases |actions|
  {
    if actions != [] {
      var (t, out) := Step(s, actions[0]);
      var outs := Run(t, actions[1..]).1;
      RunCloses(t, actions[1..], o);
      assert Run(s, actions).1 == [out] + outs;
      StepCloses(s, actions[0], o);
      if k :| 0 <= k < |actions[1..]| && HandsOutEnd(o, actions[1..][k], outs[k]) {
        assert HandsOutEnd(o, actions[k + 1], ([out] + outs)[k + 1]);
      }
      if k :| 0 < k < |actions| && HandsOutEnd(o, actions[k], ([out] + outs)[k]) {
        assert HandsOutEnd(o, actions[1..][k - 1], outs[k - 1]);
      }
    }
  }

  predicate HandsOutEnd(o: nat, a: Action, out: Outcome) {
    a == Pull(o) && out.Got? && out.response.opcode == CMD_STREAM_END
  }

  lemma StepCloses(s: Client, a: Action, o: nat)
    requires s.Valid() && Enabled(s, a)
    ensures o in Step(s, a).0.closed <==> o in s.closed || HandsOutEnd(o, a, Step(s, a).1)
    ensures Step(s, a).1 == Stopped <==> a.Pull? && a.tag in s.closed
  {
  }

  // ---------- The client itself ----------

  class DcpClient {
    var ops: map<nat, Op>
    var queues: map<nat, seq<Response>>
    var streamTimeout: bool
    var inbox: seq<Event>
    var acks: seq<nat>
    var closed: set<nat>

    constructor (events: seq<Event>)
      ensures Abs() == Client(map[], map[], false, events, [], {})
    {
      ops, queues, streamTimeout, inbox, acks, closed := map[], map[], false, events, [], {};
    }

    ghost function Abs(): Client
      reads this
    {
      Client(ops, queues, streamTimeout, inbox, acks, closed)
    }

    method ReceiveOp(o: nat) returns (out: Outcome)
      requires Abs().Valid() && o in ops
      modifies this
      ensures (Abs(), out) == RecvOp(old(Abs()), o)
    {
      while true
        invariant Abs().Valid() && ops == old(ops)
        invariant RecvOp(Abs(), o) == RecvOp(old(Abs()), o)
        decreases |inbox|
      {
        if streamTimeout {
          return Nothing;
        }
        if inbox == [] {
          return Nothing;
        }
        var e := inbox[0];
        inbox := inbox[1..];
        match e {
          case Dies => return Died;
          case TimesOut =>
            streamTimeout := true;
            return Nothing;
          case Fails => return Nothing;
          case Arrives(m) =>
            if m.tag == o {
              var response := ops[o].format(m);
              return if response.Some? then Got(response.value) else Nothing;
            }
            if m.tag in ops {
              var response := ops[m.tag].format(m);
              if response == None {
                return Nothing;
              }
              queues := queues[m.tag := queues[m.tag] + [response.value]];
            } else if m.opcode == CMD_FLOW_CONTROL {
            } else if m.opcode == CMD_STREAM_REQ {
              acks := acks + [m.tag];
            } else {
              return Nothing;
            }
        }
      }
    }

    method HandleOp(o: nat, op: Op, retries: nat) returns (out: Outcome)
      requires Abs().Valid() && o !in ops && o !in closed
      modifies this
      ensures (Abs(), out) == Step(old(Abs()), Handle(o, op, retries))
    {
      ops := ops[o := op];
      queues := queues[o := []];
      ghost var start := Abs();
      var left := retries;
      out := Nothing;
      while left > 0
        invariant Abs().Valid() && o in ops
        invariant out == Nothing && Retry(Abs(), o, left) == Retry(start, o, retries)
      {
        out := ReceiveOp(o);
        if out != Nothing {
          break;
        }
        left := left - 1;
      }
    }

    /** Resuming the generator of stream `o`. */
    method Resume(o: nat) returns (out: Outcome)
      requires Abs().Valid() && o in ops
      modifies this
      ensures (Abs(), out) == Step(old(Abs()), Pull(o))
    {
      if o in closed {
        return Stopped;
      }
      if queues[o] != [] {
        out := Got(queues[o][0]);
        queues := queues[o := queues[o][1..]];
      } else {
        out := ReceiveOp(o);
      }
      if out.Got? && out.response.opcode == CMD_STREAM_END {
        closed := closed + {o};
      }
    }
  }
}
