/**
 `DcpStream` (lib/dcp_bin_client.py): the state machine a test drives to receive mutations. It
 checks that sequence numbers rise, notices the end of the stream, and bounds empty receives.
 */
module DcpStream {
  import opened Wrappers
  import opened DcpOpcodes
  import opened DcpMessages
  import opened Lists

  /** `feed` is what the generator will yield (None when a receive came back empty); the generator
      raises StopIteration once it is used up. */
  datatype Stream = Stream(vbucket: int, feed: seq<Option<Response>>, last: nat, count: nat, ended: bool)

  datatype Pulled = Value(r: Option<Response>) | AssertionError | StopIteration

  function NextResponse(s: Stream): (Stream, Pulled) {
    if s.ended then (s, Value(None))
    else if s.feed == [] then (s, StopIteration)
    else
      var t := s.(feed := s.feed[1..]);
      match s.feed[0]
      case None => (t, Value(None))
      case Some(r) =>
        if !r.Acceptable(s.vbucket, s.last) then (t, AssertionError)
        else if r.Mutates() then (t.(last := r.seqno.value, count := s.count + 1), Value(Some(r)))
        else (t.(ended := r.opcode == CMD_STREAM_END), Value(Some(r)))
  }

  /** One call of `run`: the responses it returns, or None when an assertion fails. */
  function Run(s: Stream, toSeqno: int, retries: int): (Stream, Option<seq<Response>>)
    decreases |s.feed|
  {
    if s.ended then (s, Some([]))
    else
      var (t, p) := NextResponse(s);
      match p
      case StopIteration => (t.(ended := true), Some([]))
      case AssertionError => (t, None)
      case Value(None) => if retries - 1 > 0 then Run(t, toSeqno, retries - 1) else (t, None)
      case Value(Some(r)) =>
        if r.status == Some(0xff) || t.last >= toSeqno then (t, Some([r]))
        else After([r], Run(t, toSeqno, retries))
  }

  /** Responses in front of those that a run returns. */
  function After(rs: seq<Response>, run: (Stream, Option<seq<Response>>)): (Stream, Option<seq<Response>>) {
    (run.0, Prepend(rs, run.1))
  }

  datatype Call = Call(toSeqno: int, retries: int)

  /** Any number of calls in a row, none of which fails an assertion. */
  function RunAll(s: Stream, calls: seq<Call>): (Stream, Option<seq<Response>>)
    decreases |calls|
  {
    if calls == [] then (s, Some([]))
    else
      var (t, first) := Run(s, calls[0].toSeqno, calls[0].retries);
      if first == None then (t, None)
      else
        var (u, others) := RunAll(t, calls[1..]);
        (u, if others == None then None else Some(first.value + others.value))
  }

  // ---------- What the responses add up to ----------

  /** The sequence numbers of the mutations, deletions and expirations among the responses. */
  function Seqnos(rs: seq<Response>): seq<nat> {
    FlatMap(SeqnoOf, rs)
  }

  function SeqnoOf(r: Response): seq<nat> {
    if r.Mutates() && r.seqno.Some? then [r.seqno.value] else []
  }

  predicate Rising(floor: nat, ns: seq<nat>) {
    && (forall i :: 0 <= i < |ns| ==> floor < ns[i])
    && (forall i, j :: 0 <= i < j < |ns| ==> ns[i] < ns[j])
  }

  function LastOr(floor: nat, ns: seq<nat>): nat {
    if ns == [] then floor else ns[|ns| - 1]
  }

  function Present(feed: seq<Option<Response>>): seq<Response> {
    FlatMap(PresentIn, feed)
  }

  function PresentIn(r: Option<Response>): seq<Response> {
    if r.Some? then [r.value] else []
  }

  function Missing(feed: seq<Option<Response>>): nat {
    |FlatMap(MissingIn, feed)|
  }

  function MissingIn(r: Option<Response>): seq<Option<Response>> {
    if r.None? then [r] else []
  }

  function Used(s: Stream, t: Stream): seq<Option<Response>>
    requires |t.feed| <= |s.feed|
  {
    s.feed[..|s.feed| - |t.feed|]
  }

  /** Only the last response can be the end of the stream. */
  predicate EndsOnlyAtEnd(rs: seq<Response>) {
    forall i :: 0 <= i < |rs| - 1 ==> rs[i].opcode != CMD_STREAM_END
  }

  /** `t` results from `s` by accepting `rs`, which is all that the generator yielded meanwhile. */
  ghost predicate Accepts(s: Stream, t: Stream, rs: seq<Response>) {
    Draws(s, t, rs) && Counts(s, t, Seqnos(rs)) && Ends(s, t, rs)
  }

  ghost predicate Draws(s: Stream, t: Stream, rs: seq<Response>) {
    |t.feed| <= |s.feed| && s.feed == Used(s, t) + t.feed && rs == Present(Used(s, t))
  }

  ghost predicate Counts(s: Stream, t: Stream, ns: seq<nat>) {
    && Rising(s.last, ns) && t.last == LastOr(s.last, ns)
    && t.count == s.count + |ns| && t.vbucket == s.vbucket
  }

  ghost predicate Ends(s: Stream, t: Stream, rs: seq<Response>) {
    && EndsOnlyAtEnd(rs) && (s.ended ==> rs == [] && t == s)
    && (rs != [] && rs[|rs| - 1].opcode == CMD_STREAM_END ==> t.ended)
  }

  lemma RisingConcat(floor: nat, a: seq<nat>, b: seq<nat>)
    requires Rising(floor, a) && Rising(LastOr(floor, a), b)
    ensures Rising(floor, a + b)
    ensures LastOr(floor, a + b) == LastOr(LastOr(floor, a), b)
  {
    forall i | 0 <= i < |a| ensures a[i] <= LastOr(floor, a) {
      if i < |a| - 1 { assert a[i] < a[|a| - 1]; }
    }
  }

  lemma DrawsTrans(s: Stream, t: Stream, u: Stream, a: seq<Response>, b: seq<Response>)
    requires Draws(s, t, a) && Draws(t, u, b)
    ensures Draws(s, u, a + b) && Used(s, u) == Used(s, t) + Used(t, u)
  {
    FlatMapConcat(PresentIn, Used(s, t), Used(t, u));
    assert Used(s, u) == Used(s, t) + Used(t, u);
  }

  lemma AcceptsTrans(s: Stream, t: Stream, u: Stream, a: seq<Response>, b: seq<Response>)
    requires Accepts(s, t, a) && Accepts(t, u, b)
    ensures Accepts(s, u, a + b)
    ensures Used(s, u) == Used(s, t) + Used(t, u)
  {
    DrawsTrans(s, t, u, a, b);
    assert Counts(s, u, Seqnos(a + b)) by {
      FlatMapConcat(SeqnoOf, a, b);
      RisingConcat(s.last, Seqnos(a), Seqnos(b));
    }
    if a != [] && a[|a| - 1].opcode == CMD_STREAM_END {
      assert a + b == a;
    }
  }

  lemma AcceptsNothing(s: Stream)
    ensures Accepts(s, s, []) && Used(s, s) == []
  {
  }

  lemma NextAccepts(s: Stream)
    requires !s.ended && NextResponse(s).1.Value?
    ensures var (t, p) := NextResponse(s);
            Accepts(s, t, PresentIn(p.r)) && Used(s, t) == [p.r]
  {
    var (t, p) := NextResponse(s);
    assert Used(s, t) == [p.r];
    FlatMapOne(PresentIn, p.r);
    if p.r.Some? {
      FlatMapOne(SeqnoOf, p.r.value);
    }
  }

  /** A call that fails no assertion returns exactly what the generator yielded, with rising sequence
      numbers, and swallowed fewer empty receives than it had retries. */
  lemma {:induction false} RunAccepts(s: Stream, toSeqno: int, retries: int)
    requires Run(s, toSeqno, retries).1.Some?
    ensures var (t, rs) := Run(s, toSeqno, retries);
            && Accepts(s, t, rs.value)
            && (Missing(Used(s, t)) == 0 || Missing(Used(s, t)) < retries)
    decreases |s.feed|
  {
    var (u, rs) := Run(s, toSeqno, retries);
    if s.ended || s.feed == [] {
      AcceptsNothing(s);
      assert Used(s, u) == [];
    } else {
      var (t, p) := NextResponse(s);
      NextAccepts(s);
      FlatMapOne(MissingIn, p.r);
      if p.r.None? || !(p.r.value.status == Some(0xff) || t.last >= toSeqno) {
        var left := if p.r.None? then retries - 1 else retries;
        RunAccepts(t, toSeqno, left);
        var tail := Run(t, toSeqno, left).1.value;
        AcceptsTrans(s, t, u, PresentIn(p.r), tail);
        FlatMapConcat(MissingIn, [p.r], Used(t, u));
        assert PresentIn(p.r) + tail == rs.value;
      }
    }
  }

  lemma {:induction false} RunAllAccepts(s: Stream, calls: seq<Call>)
    requires RunAll(s, calls).1.Some?
    ensures Accepts(s, RunAll(s, calls).0, RunAll(s, calls).1.value)
    decreases |calls|
  {
    if calls == [] {
      AcceptsNothing(s);
    } else {
      RunAccepts(s, calls[0].toSeqno, calls[0].retries);
      var (t, first) := Run(s, calls[0].toSeqno, calls[0].retries);
      RunAllAccepts(t, calls[1..]);
      var (u, others) := RunAll(t, calls[1..]);
      AcceptsTrans(s, t, u, first.value, others.value);
    }
  }

  lemma {:induction false} RisingCount(floor: nat, ns: seq<nat>)
    requires Rising(floor, ns)
    ensures floor + |ns| <= LastOr(floor, ns)
  {
    if ns != [] {
      RisingCount(floor, ns[..|ns| - 1]);
    }
  }

  /** Over any calls on a new stream that fail no assertion: everything the generator yielded comes
      back once and in order; accepted sequence numbers rise strictly across calls; the stream's
      counters are their last and their number, so the count never passes the last sequence number;
      and nothing follows the end of the stream. */
  lemma StreamRuns(vbucket: int, feed: seq<Option<Response>>, calls: seq<Call>)
    requires RunAll(Stream(vbucket, feed, 0, 0, false), calls).1.Some?
    ensures var (t, rs) := RunAll(Stream(vbucket, feed, 0, 0, false), calls);
            var ns := Seqnos(rs.value);
            && |t.feed| <= |feed| && feed == feed[..|feed| - |t.feed|] + t.feed
            && rs.value == Present(feed[..|feed| - |t.feed|])
            && (forall i, j :: 0 <= i < j < |ns| ==> ns[i] < ns[j])
            && t.last == LastOr(0, ns) && t.count == |ns| <= t.last
            && EndsOnlyAtEnd(rs.value)
  {
    RunAllAccepts(Stream(vbucket, feed, 0, 0, false), calls);
    RisingCount(0, Seqnos(RunAll(Stream(vbucket, feed, 0, 0, false), calls).1.value));
  }

  function Empties(k: nat): seq<Option<Response>> {
    seq(k, _ => None)
  }

  /** Exactly how many empty receives one call tolerates before the end of the stream. */
  lemma {:induction false} Tolerates(s: Stream, k: nat, end: Response, toSeqno: int, retries: int)
    requires !s.ended && s.feed == Empties(k) + [Some(end)] && end.opcode == CMD_STREAM_END
    ensures Run(s, toSeqno, retries).1.Some? <==> k == 0 || k < retries
    decreases k
  {
    if k > 0 {
      var t := NextResponse(s).0;
      assert t.feed == Empties(k - 1) + [Some(end)];
      Tolerates(t, k - 1, end, toSeqno, retries - 1);
    } else {
      assert s.feed == [Some(end)];
    }
  }

  // ---------- Where a call stops ----------

  /** The last sequence number after the given part of the feed. */
  function LastAfter(floor: nat, feed: seq<Option<Response>>): nat {
    LastOr(floor, Seqnos(Present(feed)))
  }

  /** The i-th of the feed makes a call return: the end of the stream, a dead peer, or the sequence number reached. */
  predicate HaltsAt(floor: nat, toSeqno: int, feed: seq<Option<Response>>, i: nat)
    requires i < |feed|
  {
    && feed[i].Some?
    && (|| feed[i].value.opcode == CMD_STREAM_END
        || feed[i].value.status == Some(0xff)
        || LastAfter(floor, feed[..i + 1]) >= toSeqno)
  }

  /** A call draws the first `n` of the feed: up to and including the first that makes it return, or all. */
  ghost predicate StopsAfter(floor: nat, toSeqno: int, feed: seq<Option<Response>>, n: nat) {
    && n <= |feed|
    && (forall i :: 0 <= i < n - 1 ==> !HaltsAt(floor, toSeqno, feed, i))
    && (n < |feed| ==> n > 0 && HaltsAt(floor, toSeqno, feed, n - 1))
  }

  /** The i-th of the feed fails an assertion: a response out of order or of another vBucket, or one empty receive
      too many. */
  predicate FailsAt(vb: int, floor: nat, retries: int, feed: seq<Option<Response>>, i: nat)
    requires i < |feed|
  {
    match feed[i]
    case None => Missing(feed[..i + 1]) >= retries
    case Some(r) => !r.Acceptable(vb, LastAfter(floor, feed[..i]))
  }

  ghost predicate NoneFails(vb: int, floor: nat, retries: int, feed: seq<Option<Response>>, n: nat)
    requires n <= |feed|
  {
    forall i :: 0 <= i < n ==> !FailsAt(vb, floor, retries, feed, i)
  }

  /** What a call that draws `n` and fails no assertion leaves: the stream has ended exactly if the last drawn is its
      end, or if the feed is used up and nothing in it made the call return. */
  ghost predicate LeftAfter(s: Stream, toSeqno: int, n: nat, t: Stream) {
    && n <= |s.feed| && t.feed == s.feed[n..] && t.vbucket == s.vbucket
    && t.last == LastAfter(s.last, s.feed[..n]) && t.count == s.count + |Seqnos(Present(s.feed[..n]))|
    && (t.ended <==> (n == 0 || !HaltsAt(s.last, toSeqno, s.feed, n - 1)
                      || s.feed[n - 1].value.opcode == CMD_STREAM_END))
  }

  lemma LastOrConcat(floor: nat, a: seq<nat>, b: seq<nat>)
    ensures LastOr(floor, a + b) == LastOr(LastOr(floor, a), b)
  {
  }

  lemma LastAfterCons(floor: nat, feed: seq<Option<Response>>, i: nat)
    requires 0 < i <= |feed|
    ensures LastAfter(floor, feed[..i]) == LastAfter(LastAfter(floor, feed[..1]), feed[1..][..i - 1])
    ensures Missing(feed[..i]) == Missing(feed[..1]) + Missing(feed[1..][..i - 1])
    ensures Present(feed[..i]) == Present(feed[..1]) + Present(feed[1..][..i - 1])
    ensures Seqnos(Present(feed[..i])) == Seqnos(Present(feed[..1])) + Seqnos(Present(feed[1..][..i - 1]))
  {
    var a, b := feed[..1], feed[1..][..i - 1];
    assert feed[..i] == a + b;
    FlatMapConcat(PresentIn, a, b);
    FlatMapConcat(MissingIn, a, b);
    FlatMapConcat(SeqnoOf, Present(a), Present(b));
    LastOrConcat(floor, Seqnos(Present(a)), Seqnos(Present(b)));
  }

  lemma HaltsShift(floor: nat, toSeqno: int, feed: seq<Option<Response>>, i: nat)
    requires 0 < i < |feed|
    ensures HaltsAt(floor, toSeqno, feed, i) <==> HaltsAt(LastAfter(floor, feed[..1]), toSeqno, feed[1..], i - 1)
  {
    LastAfterCons(floor, feed, i + 1);
  }

  lemma FailsShift(vb: int, floor: nat, retries: int, feed: seq<Option<Response>>, i: nat)
    requires 0 < i < |feed|
    ensures FailsAt(vb, floor, retries, feed, i) <==>
            FailsAt(vb, LastAfter(floor, feed[..1]), retries - Missing(feed[..1]), feed[1..], i - 1)
  {
    LastAfterCons(floor, feed, i + 1);
    LastAfterCons(floor, feed, i);
  }

  lemma StopsShift(floor: nat, toSeqno: int, feed: seq<Option<Response>>, n: nat)
    requires feed != [] && StopsAfter(floor, toSeqno, feed, n)
    ensures n > 0
    ensures HaltsAt(floor, toSeqno, feed, 0) ==> n == 1
    ensures !HaltsAt(floor, toSeqno, feed, 0) ==> StopsAfter(LastAfter(floor, feed[..1]), toSeqno, feed[1..], n - 1)
  {
    if !HaltsAt(floor, toSeqno, feed, 0) {
      forall i | 0 <= i < n - 2
        ensures !HaltsAt(LastAfter(floor, feed[..1]), toSeqno, feed[1..], i) {
        HaltsShift(floor, toSeqno, feed, i + 1);
      }
      if 1 < n < |feed| { HaltsShift(floor, toSeqno, feed, n - 1); }
    }
  }

  lemma {:induction false} StopExists(floor: nat, toSeqno: int, feed: seq<Option<Response>>, k: nat) returns (n: nat)
    requires k <= |feed| && forall i :: 0 <= i < k ==> !HaltsAt(floor, toSeqno, feed, i)
    ensures StopsAfter(floor, toSeqno, feed, n)
    decreases |feed| - k
  {
    if k == |feed| {
      n := k;
    } else if HaltsAt(floor, toSeqno, feed, k) {
      n := k + 1;
    } else {
      n := StopExists(floor, toSeqno, feed, k + 1);
    }
  }

  /** The first of the feed, as a call meets it. */
  lemma FirstDrawn(s: Stream, toSeqno: int, retries: int)
    requires !s.ended && s.feed != []
    ensures var (t, p) := NextResponse(s);
            && t.feed == s.feed[1..] && t.vbucket == s.vbucket
            && (FailsAt(s.vbucket, s.last, retries, s.feed, 0) <==>
                if s.feed[0].None? then retries <= 1 else p.AssertionError?)
            && (p.Value? ==>
                  && p.r == s.feed[0] && t.last == LastAfter(s.last, s.feed[..1])
                  && t.count == s.count + |Seqnos(Present(s.feed[..1]))|
                  && (t.ended <==> s.feed[0].Some? && s.feed[0].value.opcode == CMD_STREAM_END))
    ensures Missing(s.feed[..1]) == if s.feed[0].None? then 1 else 0
    ensures Present(s.feed[..1]) == if s.feed[0].None? then [] else [s.feed[0].value]
  {
    var x := s.feed[0];
    assert s.feed[..1] == [x] && s.feed[..0] == [];
    FlatMapOne(PresentIn, x);
    FlatMapOne(MissingIn, x);
    if x.Some? { FlatMapOne(SeqnoOf, x.value); }
  }

  lemma RunHalts(s: Stream, toSeqno: int, retries: int)
    requires !s.ended && s.feed != [] && !FailsAt(s.vbucket, s.last, retries, s.feed, 0)
    requires HaltsAt(s.last, toSeqno, s.feed, 0)
    ensures Run(s, toSeqno, retries) == (NextResponse(s).0, Some([s.feed[0].value]))
  {
    FirstDrawn(s, toSeqno, retries);
    var t, r := NextResponse(s).0, s.feed[0].value;
    if !(r.status == Some(0xff) || t.last >= toSeqno) {
      assert t.ended && Run(t, toSeqno, retries) == (t, Some([]));
      assert [r] + [] == [r];
    }
  }

  lemma RunGoesOn(s: Stream, toSeqno: int, retries: int)
    requires !s.ended && s.feed != [] && !FailsAt(s.vbucket, s.last, retries, s.feed, 0)
    requires !HaltsAt(s.last, toSeqno, s.feed, 0)
    ensures var run := Run(NextResponse(s).0, toSeqno, retries - Missing(s.feed[..1]));
            Run(s, toSeqno, retries) == After(Present(s.feed[..1]), run)
  {
    FirstDrawn(s, toSeqno, retries);
    if s.feed[0].None? {
      var run := Run(NextResponse(s).0, toSeqno, retries - 1);
      assert run.1.Some? ==> [] + run.1.value == run.1.value;
    }
  }

  lemma LeftShift(s: Stream, t: Stream, toSeqno: int, n: nat, u: Stream)
    requires 0 < n <= |s.feed| && t.feed == s.feed[1..] && t.vbucket == s.vbucket
    requires t.last == LastAfter(s.last, s.feed[..1]) && t.count == s.count + |Seqnos(Present(s.feed[..1]))|
    requires LeftAfter(t, toSeqno, n - 1, u) && !HaltsAt(s.last, toSeqno, s.feed, 0)
    ensures LeftAfter(s, toSeqno, n, u)
  {
    LastAfterCons(s.last, s.feed, n);
    if n > 1 { HaltsShift(s.last, toSeqno, s.feed, n - 1); }
  }

  lemma FailsShiftAll(vb: int, floor: nat, retries: int, feed: seq<Option<Response>>, n: nat)
    requires 0 < n <= |feed| && !FailsAt(vb, floor, retries, feed, 0)
    ensures NoneFails(vb, floor, retries, feed, n) <==>
            NoneFails(vb, LastAfter(floor, feed[..1]), retries - Missing(feed[..1]), feed[1..], n - 1)
  {
    forall i | 0 < i < n
      ensures FailsAt(vb, floor, retries, feed, i) <==>
              FailsAt(vb, LastAfter(floor, feed[..1]), retries - Missing(feed[..1]), feed[1..], i - 1) {
      FailsShift(vb, floor, retries, feed, i);
    }
    var floor', left := LastAfter(floor, feed[..1]), retries - Missing(feed[..1]);
    assert forall i :: 0 <= i < n - 1 ==>
             (FailsAt(vb, floor', left, feed[1..], i) <==> FailsAt(vb, floor, retries, feed, i + 1));
  }

  /** What a call makes of the first `n` of the feed. */
  ghost predicate Ruled(s: Stream, toSeqno: int, retries: int, n: nat)
    requires n <= |s.feed|
  {
    var (t, rs) := Run(s, toSeqno, retries);
    && (rs.Some? <==> NoneFails(s.vbucket, s.last, retries, s.feed, n))
    && (rs.Some? ==> rs.value == Present(s.feed[..n]) && LeftAfter(s, toSeqno, n, t))
  }

  lemma RuledFirst(s: Stream, toSeqno: int, retries: int, n: nat)
    requires !s.ended && 0 < n <= |s.feed|
    requires FailsAt(s.vbucket, s.last, retries, s.feed, 0) || (HaltsAt(s.last, toSeqno, s.feed, 0) && n == 1)
    ensures Ruled(s, toSeqno, retries, n)
  {
    FirstDrawn(s, toSeqno, retries);
    if !FailsAt(s.vbucket, s.last, retries, s.feed, 0) {
      RunHalts(s, toSeqno, retries);
    }
  }

  lemma RuledNext(s: Stream, toSeqno: int, retries: int, n: nat)
    requires !s.ended && 0 < n <= |s.feed|
    requires !FailsAt(s.vbucket, s.last, retries, s.feed, 0) && !HaltsAt(s.last, toSeqno, s.feed, 0)
    requires n - 1 <= |NextResponse(s).0.feed|
    requires Ruled(NextResponse(s).0, toSeqno, retries - Missing(s.feed[..1]), n - 1)
    ensures Ruled(s, toSeqno, retries, n)
  {
    var t, left := NextResponse(s).0, retries - Missing(s.feed[..1]);
    FirstDrawn(s, toSeqno, retries);
    RunGoesOn(s, toSeqno, retries);
    FailsShiftAll(s.vbucket, s.last, retries, s.feed, n);
    LastAfterCons(s.last, s.feed, n);
    var (u, rs) := Run(t, toSeqno, left);
    if rs.Some? { LeftShift(s, t, toSeqno, n, u); }
  }

  /** The whole rule of a call, told from the feed alone: it draws up to and including the first response that is the
      end of the stream, or of a dead peer, or with which the sequence number asked for is reached; it fails an
      assertion exactly if something in that part does; and otherwise it returns the responses in that part. */
  lemma {:induction false} RunIs(s: Stream, toSeqno: int, retries: int, n: nat)
    requires !s.ended && StopsAfter(s.last, toSeqno, s.feed, n)
    ensures Ruled(s, toSeqno, retries, n)
    decreases |s.feed|
  {
    if s.feed == [] {
      assert s.feed[..0] == [] && s.feed[0..] == [];
    } else {
      StopsShift(s.last, toSeqno, s.feed, n);
      if FailsAt(s.vbucket, s.last, retries, s.feed, 0) || HaltsAt(s.last, toSeqno, s.feed, 0) {
        RuledFirst(s, toSeqno, retries, n);
      } else {
        FirstDrawn(s, toSeqno, retries);
        RunIs(NextResponse(s).0, toSeqno, retries - Missing(s.feed[..1]), n - 1);
        RuledNext(s, toSeqno, retries, n);
      }
    }
  }

  /** A stream that has ended returns nothing and stays as it is. */
  lemma EndedRuns(s: Stream, toSeqno: int, retries: int)
    requires s.ended
    ensures Run(s, toSeqno, retries) == (s, Some([]))
  {
  }

  // ---------- The object itself ----------

  class DcpStream {
    const vbucket: int
    var generator: seq<Option<Response>>
    var lastBySeqno: nat
    var mutationCount: nat
    var ended: bool

    constructor (vb: int, responses: seq<Option<Response>>)
      ensures Abs() == Stream(vb, responses, 0, 0, false)
    {
      vbucket := vb;
      generator, lastBySeqno, mutationCount, ended := responses, 0, 0, false;
    }

    ghost function Abs(): Stream
      reads this
    {
      Stream(vbucket, generator, lastBySeqno, mutationCount, ended)
    }

    method PullResponse() returns (p: Pulled)
      modifies this
      ensures (Abs(), p) == NextResponse(old(Abs()))
    {
      if ended {
        return Value(None);
      }
      if generator == [] {
        return StopIteration;
      }
      var response := generator[0];
      generator := generator[1..];
      if response.Some? {
        var r := response.value;
        if r.opcode == CMD_MUTATION || r.opcode == CMD_DELETION || r.opcode == CMD_EXPIRATION {
          if r.vbucket != vbucket || r.seqno == None || r.seqno.value <= lastBySeqno {
            return AssertionError;
          }
          lastBySeqno := r.seqno.value;
          mutationCount := mutationCount + 1;
        }
        if r.opcode == CMD_STREAM_END {
          ended := true;
        }
      }
      return Value(response);
    }

    /** `run`: responses so far are kept in `responses`; a failed assertion loses them. */
    method RunStream(toSeqno: int, retries: int) returns (result: Option<seq<Response>>)
      modifies this
      ensures (Abs(), result) == Run(old(Abs()), toSeqno, retries)
    {
      var responses: seq<Response> := [];
      var left := retries;
      ghost var all := Run(Abs(), toSeqno, retries);
      assert all.1.Some? ==> [] + all.1.value == all.1.value;
      while !ended
        invariant After(responses, Run(Abs(), toSeqno, left)) == all
        decreases |generator|, !ended
      {
        var p := PullResponse();
        if p == StopIteration {
          ended := true;
        } else if p == AssertionError {
          return None;
        } else if p.r == None {
          left := left - 1;
          if left <= 0 {
            return None;
          }
        } else {
          PrependTwice(responses, [p.r.value], Run(Abs(), toSeqno, left).1);
          responses := responses + [p.r.value];
          if p.r.value.status == Some(0xff) || lastBySeqno >= toSeqno {
            return Some(responses);
          }
        }
      }
      assert responses + [] == responses;
      return Some(responses);
    }
  }
}
