/**
 The launch loop of the test dispatcher (scripts/testDispatcher.py): a first-fit scheduler that asks a
 server manager, shared with other dispatchers, for machines. Every HTTP request takes the next
 answer of an arbitrary script, so a theorem about all scripts covers every behaviour of the manager.
 */
module Dispatcher {
  import opened Wrappers

  type Machine = string

  datatype Test = Test(name: string, serverCount: int, addPoolServerCount: int)

  /** An answer, read as a number and as a list of machines where it can be, or an exception. */
  datatype Reply = Raised | Reply(status: int, number: Option<int>, machines: Option<seq<Machine>>)

  datatype Mode = Mode(docker: bool, noLaunch: bool)

  /** A request to the test executor: the machines it names, and the answer it quotes for the extra pool. */
  datatype Launch = Launch(test: Test, machines: Option<seq<Machine>>, extra: Option<Reply>)

  /** A usable count of available machines. */
  predicate Counts(r: Reply) {
    r.Reply? && r.status == 200 && r.number.Some?
  }

  // ---------- One turn of the loop ----------

  datatype Sought = Fit(i: nat, next: nat) | NoFit(next: nat) | Failed(next: nat) | Silent

  /** The search for a test to launch. A bad answer about the extra pool asks again for the same test. */
  function Search(script: seq<Reply>, p: nat, pending: seq<Test>, i: nat, count: int): Sought
    requires i <= |pending| && p <= |script|
    decreases |pending| - i + (|script| - p)
  {
    if i == |pending| then NoFit(p)
    else if pending[i].serverCount > count then Search(script, p, pending, i + 1, count)
    else if pending[i].addPoolServerCount == 0 then Fit(i, p)
    else if p == |script| then Silent
    else if script[p].Raised? then Failed(p + 1)
    else if script[p].status != 200 then Search(script, p + 1, pending, i, count)
    else if script[p].number.None? then Failed(p + 1)
    else if script[p].number.value == 0 then Search(script, p + 1, pending, i + 1, count)
    else Fit(i, p + 1)
  }

  /** How a turn ends: nothing popped, though a launch may have been sent; a test popped; or the script over. */
  datatype Turn = Idle(unanswered: Option<Launch>, next: nat) | Popped(i: nat, sent: Option<Launch>, next: nat) | Over

  /** The launch, once the machines are there. */
  function Send(mode: Mode, script: seq<Reply>, p: nat, i: nat, launch: Launch): Turn
    requires p <= |script|
  {
    if mode.noLaunch && mode.docker then Popped(i, None, p)
    else if p == |script| then Over
    else if mode.noLaunch then if script[p].Raised? then Idle(None, p + 1) else Popped(i, None, p + 1)
    else if script[p].Raised? then Idle(Some(launch), p + 1)
    else Popped(i, Some(launch), p + 1)
  }

  /** Grabbing the machines of a test and launching it. */
  function Acquire(mode: Mode, script: seq<Reply>, p: nat, i: nat, t: Test): Turn
    requires p <= |script|
  {
    if p == |script| then Over
    else if script[p].Raised? then Idle(None, p + 1)
    else if !mode.docker && (script[p].machines.None? || |script[p].machines.value| != t.serverCount)
    then Idle(None, p + 1)
    else
      var machines := if mode.docker then None else script[p].machines;
      if t.addPoolServerCount == 0 then
        if script[p].status == 499 then Idle(None, p + 1)
        else Send(mode, script, p + 1, i, Launch(t, machines, None))
      else if p + 1 == |script| then Over
      else if script[p + 1].Raised? || script[p].status == 499 || script[p + 1].status == 499 then Idle(None, p + 2)
      else Send(mode, script, p + 2, i, Launch(t, machines, if mode.docker then None else Some(script[p + 1])))
  }

  function TurnFrom(mode: Mode, script: seq<Reply>, p: nat, pending: seq<Test>): Turn
    requires p <= |script|
  {
    if p == |script| then Over
    else if !Counts(script[p]) || script[p].number.value == 0 then Idle(None, p + 1)
    else
      var s := Search(script, p + 1, pending, 0, script[p].number.value);
      match s
      case Silent => Over
      case NoFit(next) => Idle(None, next)
      case Failed(next) => Idle(None, next)
      case Fit(i, next) =>
        SearchBounds(script, p + 1, pending, 0, script[p].number.value);
        Acquire(mode, script, next, i, pending[i])
  }

  lemma {:induction false} SearchBounds(script: seq<Reply>, p: nat, pending: seq<Test>, i: nat, count: int)
    requires i <= |pending| && p <= |script|
    ensures var s := Search(script, p, pending, i, count);
            && (!s.Silent? ==> p <= s.next <= |script|)
            && (s.Fit? ==> i <= s.i < |pending|)
    decreases |pending| - i + (|script| - p)
  {
    if i < |pending| {
      if pending[i].serverCount > count {
        SearchBounds(script, p, pending, i + 1, count);
      } else if p < |script| && script[p].Reply? {
        SearchBounds(script, p + 1, pending, i, count);
        SearchBounds(script, p + 1, pending, i + 1, count);
      }
    }
  }

  lemma TurnBounds(mode: Mode, script: seq<Reply>, p: nat, pending: seq<Test>)
    requires p <= |script|
    ensures var t := TurnFrom(mode, script, p, pending);
            && (!t.Over? ==> p < t.next <= |script|)
            && (t.Popped? ==> t.i < |pending|)
  {
    if p < |script| && Counts(script[p]) {
      SearchBounds(script, p + 1, pending, 0, script[p].number.value);
    }
  }

  // ---------- First fit ----------

  /** What the answers said about a test that was passed over: `at` is where the extra pool was found empty. */
  ghost predicate Unfit(script: seq<Reply>, p: nat, q: nat, t: Test, count: int, at: nat) {
    t.serverCount > count
    || (t.addPoolServerCount != 0 && p <= at < q <= |script| && Counts(script[at]) && script[at].number.value == 0)
  }

  /** What the answers said about the test that was picked. */
  ghost predicate Fitting(script: seq<Reply>, p: nat, q: nat, t: Test, count: int) {
    t.serverCount <= count
    && (t.addPoolServerCount == 0
        || (p < q <= |script| && Counts(script[q - 1]) && script[q - 1].number.value != 0))
  }

  /** None of the tests from the i-th on, as many as `at` has places, fitted. */
  ghost predicate PassedOver(script: seq<Reply>, p: nat, q: nat, pending: seq<Test>, i: nat, count: int, at: seq<nat>) {
    && i + |at| <= |pending|
    && forall j :: 0 <= j < |at| ==> Unfit(script, p, q, pending[i + j], count, at[j])
  }

  lemma PassedOverCons(script: seq<Reply>, p: nat, p': nat, q: nat, pending: seq<Test>, i: nat, count: int,
                       x: nat, rest: seq<nat>)
    requires PassedOver(script, p', q, pending, i + 1, count, rest) && p <= p' && i < |pending|
    requires Unfit(script, p, q, pending[i], count, x)
    ensures PassedOver(script, p, q, pending, i, count, [x] + rest)
  {
    var at := [x] + rest;
    forall j | 0 <= j < |at| ensures Unfit(script, p, q, pending[i + j], count, at[j]) {
      if j > 0 {
        assert Unfit(script, p', q, pending[i + 1 + (j - 1)], count, rest[j - 1]);
      }
    }
  }

  /** The tests passed over did not fit; the one picked did. */
  lemma {:induction false} SearchFirst(script: seq<Reply>, p: nat, pending: seq<Test>, i: nat, count: int)
    returns (at: seq<nat>)
    requires i <= |pending| && p <= |script|
    requires var s := Search(script, p, pending, i, count); s.Fit? || s.NoFit?
    ensures var s := Search(script, p, pending, i, count);
            && PassedOver(script, p, s.next, pending, i, count, at)
            && i + |at| == (if s.Fit? then s.i else |pending|)
            && (s.Fit? ==> s.i < |pending| && Fitting(script, p, s.next, pending[s.i], count))
    decreases |pending| - i + (|script| - p)
  {
    var q := Search(script, p, pending, i, count).next;
    SearchBounds(script, p, pending, i, count);
    if i == |pending| || (pending[i].serverCount <= count && pending[i].addPoolServerCount == 0) {
      at := [];
    } else if pending[i].serverCount > count {
      at := SearchFirst(script, p, pending, i + 1, count);
      PassedOverCons(script, p, p, q, pending, i, count, 0, at);
      at := [0] + at;
    } else if script[p].status != 200 {
      at := SearchFirst(script, p + 1, pending, i, count);
    } else if script[p].number.value == 0 {
      at := SearchFirst(script, p + 1, pending, i + 1, count);
      SearchBounds(script, p + 1, pending, i + 1, count);
      PassedOverCons(script, p, p + 1, q, pending, i, count, p, at);
      at := [p] + at;
    } else {
      at := [];
    }
  }

  /** The machines that a launch names are as many as its test needs. */
  predicate Staffed(mode: Mode, l: Launch) {
    !mode.docker ==> l.machines.Some? && |l.machines.value| == l.test.serverCount
  }

  /** The manager granted what the test needs with the answer at `q`, and for extra machines the answer behind it:
      neither is an exception or has status 499, and outside Docker the first lists as many machines as are needed. */
  ghost predicate GrantedAt(mode: Mode, script: seq<Reply>, t: Test, q: nat) {
    && q < |script| && script[q].Reply? && script[q].status != 499
    && (!mode.docker ==> ListsExactly(script[q], t.serverCount))
    && (t.addPoolServerCount != 0 ==> q + 1 < |script| && script[q + 1].Reply? && script[q + 1].status != 499)
  }

  /** A launch follows from a grant: outside Docker it names the machines granted, and quotes the answer for the extra
      pool if its test needs one. */
  ghost predicate SourcedAt(mode: Mode, script: seq<Reply>, l: Launch, q: nat) {
    && GrantedAt(mode, script, l.test, q)
    && l.machines == (if mode.docker then None else script[q].machines)
    && l.extra == (if mode.docker || l.test.addPoolServerCount == 0 then None else Some(script[q + 1]))
  }

  ghost predicate Sourced(mode: Mode, script: seq<Reply>, l: Launch) {
    exists q: nat :: SourcedAt(mode, script, l, q)
  }

  predicate ListsExactly(r: Reply, n: int) {
    r.Reply? && r.machines.Some? && |r.machines.value| == n
  }

  /** The extra machines that a launch quotes are as many as its test needs. */
  predicate ExtrasThere(l: Launch) {
    l.test.addPoolServerCount == 0 || (l.extra.Some? && ListsExactly(l.extra.value, l.test.addPoolServerCount))
  }

  /** The launch that a turn sends, if any, answered or not. */
  function LaunchOf(t: Turn): Option<Launch> {
    match t
    case Idle(unanswered, _) => unanswered
    case Popped(_, sent, _) => sent
    case Over => None
  }

  /** Whenever a test is popped, or its launch sent and not answered: a number of machines was reported,
      by it and the extra pool's answers no earlier test fitted and this one did, and the launch names
      as many machines as the test needs, granted behind the search, whatever other dispatchers took in between. */
  lemma TurnPicksFirst(mode: Mode, script: seq<Reply>, p: nat, pending: seq<Test>)
    returns (i: nat, q: nat, at: seq<nat>)
    requires p <= |script|
    requires var t := TurnFrom(mode, script, p, pending);
             t.Popped? || LaunchOf(t).Some?
    ensures p < |script| && Counts(script[p]) && i == |at| < |pending|
    ensures var count := script[p].number.value;
            PassedOver(script, p + 1, q, pending, 0, count, at) && Fitting(script, p + 1, q, pending[i], count)
    ensures var t := TurnFrom(mode, script, p, pending);
            && (t.Popped? ==> i == t.i && (t.sent.None? <==> mode.noLaunch))
            && (LaunchOf(t).Some? ==> LaunchOf(t).value.test == pending[i] && Staffed(mode, LaunchOf(t).value))
    ensures var t := TurnFrom(mode, script, p, pending);
            && (LaunchOf(t).Some? ==> p < q < t.next - 1 && SourcedAt(mode, script, LaunchOf(t).value, q))
            && (t.Popped? ==> GrantedAt(mode, script, pending[i], q))
  {
    var count := script[p].number.value;
    at := SearchFirst(script, p + 1, pending, 0, count);
    SearchBounds(script, p + 1, pending, 0, count);
    var s := Search(script, p + 1, pending, 0, count);
    i, q := s.i, s.next;
  }

  // ---------- When a search and a turn end how ----------

  /** How many of the answers from `p` up to `q` report an empty extra pool. */
  ghost function Empties(script: seq<Reply>, p: nat, q: nat): nat
    requires p <= q <= |script|
    decreases q - p
  {
    if p == q then 0
    else (if Counts(script[p]) && script[p].number.value == 0 then 1 else 0) + Empties(script, p + 1, q)
  }

  /** How many of the tests from `i` up to `j` are small enough for `count` machines. */
  ghost function Small(pending: seq<Test>, i: nat, j: nat, count: int): nat
    requires i <= j <= |pending|
    decreases j - i
  {
    if i == j then 0 else (if pending[i].serverCount <= count then 1 else 0) + Small(pending, i + 1, j, count)
  }

  /** A test that is small enough, and needs the extra pool. */
  predicate Asks(pending: seq<Test>, j: nat, count: int) {
    j < |pending| && pending[j].serverCount <= count && pending[j].addPoolServerCount != 0
  }

  /** The answers from `p` up to `q` rule out the tests from `i` up to `j`: each test is too big or needs the extra
      pool; each answer came and reports an empty pool unless its status is bad; and there is one such report for
      each test that is small enough. */
  ghost predicate RuledOut(script: seq<Reply>, p: nat, q: nat, pending: seq<Test>, i: nat, j: nat, count: int) {
    && p <= q <= |script| && i <= j <= |pending|
    && (forall k :: i <= k < j ==> pending[k].serverCount > count || pending[k].addPoolServerCount != 0)
    && (forall k :: p <= k < q ==> script[k].Reply? && (script[k].status == 200 ==> script[k].number == Some(0)))
    && Empties(script, p, q) == Small(pending, i, j, count)
  }

  /** The last of the answers from `p` up to `q`, if there is one, reports a number. */
  predicate EndsCounted(script: seq<Reply>, p: nat, q: nat)
    requires p <= q <= |script|
  {
    p < q ==> Counts(script[q - 1])
  }

  /** The result `s`, with the tests from `i` up to `j` ruled out before it. */
  ghost predicate Settles(script: seq<Reply>, p: nat, pending: seq<Test>, i: nat, count: int, j: nat, s: Sought) {
    match s
    case Fit(k, q) =>
      k == j && if Asks(pending, j, count)
                then p < q && RuledOut(script, p, q - 1, pending, i, j, count) && FoundExtra(script, q - 1)
                else j < |pending| && pending[j].serverCount <= count
                     && RuledOut(script, p, q, pending, i, j, count) && EndsCounted(script, p, q)
    case NoFit(q) => j == |pending| && RuledOut(script, p, q, pending, i, j, count) && EndsCounted(script, p, q)
    case Failed(q) =>
      Asks(pending, j, count) && p < q && RuledOut(script, p, q - 1, pending, i, j, count) && Unreadable(script, q - 1)
    case Silent => Asks(pending, j, count) && RuledOut(script, p, |script|, pending, i, j, count)
  }

  predicate FoundExtra(script: seq<Reply>, q: nat) {
    q < |script| && Counts(script[q]) && script[q].number.value != 0
  }

  /** Reading the answer raises an exception. */
  predicate Unreadable(script: seq<Reply>, q: nat) {
    q < |script| && (script[q].Raised? || (script[q].status == 200 && script[q].number.None?))
  }

  lemma RuledOutTest(script: seq<Reply>, p: nat, q: nat, pending: seq<Test>, i: nat, j: nat, count: int)
    requires i < |pending| && pending[i].serverCount > count
    ensures i < j && RuledOut(script, p, q, pending, i, j, count) <==>
            i < j && RuledOut(script, p, q, pending, i + 1, j, count)
  {
  }

  lemma RuledOutAnswer(script: seq<Reply>, p: nat, q: nat, pending: seq<Test>, i: nat, j: nat, count: int)
    requires p < |script| && script[p].Reply? && script[p].status != 200
    ensures p < q && RuledOut(script, p, q, pending, i, j, count) <==>
            p < q && RuledOut(script, p + 1, q, pending, i, j, count)
  {
  }

  lemma RuledOutBoth(script: seq<Reply>, p: nat, q: nat, pending: seq<Test>, i: nat, j: nat, count: int)
    requires p < |script| && Counts(script[p]) && script[p].number.value == 0 && Asks(pending, i, count)
    ensures p < q && i < j && RuledOut(script, p, q, pending, i, j, count) <==>
            p < q && i < j && RuledOut(script, p + 1, q, pending, i + 1, j, count)
  {
  }

  lemma {:induction false} EmptiesLast(script: seq<Reply>, p: nat, q: nat)
    requires p < q <= |script| && Counts(script[q - 1]) && script[q - 1].number.value == 0
    ensures Empties(script, p, q) > 0
    decreases q - p
  {
    if p + 1 < q {
      EmptiesLast(script, p + 1, q);
    }
  }

  /** Without a small test, no answer has been read that reports a number. */
  lemma NothingRead(script: seq<Reply>, p: nat, q: nat, pending: seq<Test>, i: nat, count: int)
    requires RuledOut(script, p, q, pending, i, i, count) && EndsCounted(script, p, q)
    ensures p == q
  {
    if p < q {
      EmptiesLast(script, p, q);
    }
  }

  /** How far the answers are read that rule tests out. */
  function RuledUpTo(script: seq<Reply>, pending: seq<Test>, count: int, s: Sought): int {
    match s
    case Fit(j, q) => if Asks(pending, j, count) then q - 1 else q
    case NoFit(q) => q
    case Failed(q) => q - 1
    case Silent => |script|
  }

  /** The search ends as the answers settle it. */
  lemma {:induction false} SearchIs(script: seq<Reply>, p: nat, pending: seq<Test>, i: nat, count: int) returns (j: nat)
    requires i <= |pending| && p <= |script|
    ensures Settles(script, p, pending, i, count, j, Search(script, p, pending, i, count))
    decreases |pending| - i + (|script| - p)
  {
    j := i;
    var s := Search(script, p, pending, i, count);
    var q := RuledUpTo(script, pending, count, s);
    SearchBounds(script, p, pending, i, count);
    if i < |pending| {
      if pending[i].serverCount > count {
        j := SearchIs(script, p, pending, i + 1, count);
        RuledOutTest(script, p, q, pending, i, j, count);
      } else if Asks(pending, i, count) && p < |script| && script[p].Reply? {
        if script[p].status != 200 {
          j := SearchIs(script, p + 1, pending, i, count);
          RuledOutAnswer(script, p, q, pending, i, j, count);
        } else if script[p].number == Some(0) {
          j := SearchIs(script, p + 1, pending, i + 1, count);
          RuledOutBoth(script, p, q, pending, i, j, count);
        }
      }
    }
  }

  /** And the answers settle it in one way only. */
  lemma {:induction false} SettledIs(
    script: seq<Reply>, p: nat, pending: seq<Test>, i: nat, count: int, j: nat, s: Sought)
    requires i <= |pending| && p <= |script| && Settles(script, p, pending, i, count, j, s)
    ensures Search(script, p, pending, i, count) == s
    decreases |pending| - i + (|script| - p)
  {
    var q := RuledUpTo(script, pending, count, s);
    assert RuledOut(script, p, q, pending, i, j, count);
    if i == |pending| || (pending[i].serverCount <= count && pending[i].addPoolServerCount == 0) {
      assert i == j;
      NothingRead(script, p, q, pending, i, count);
    } else if pending[i].serverCount > count {
      RuledOutTest(script, p, q, pending, i, j, count);
      SettledIs(script, p, pending, i + 1, count, j, s);
    } else if p < |script| && script[p].Reply? && script[p].status != 200 {
      RuledOutAnswer(script, p, q, pending, i, j, count);
      SettledIs(script, p + 1, pending, i, count, j, s);
    } else if p < |script| && script[p].Reply? && script[p].number == Some(0) {
      RuledOutBoth(script, p, q, pending, i, j, count);
      SettledIs(script, p + 1, pending, i + 1, count, j, s);
    } else {
      assert p == q && i == j;
    }
  }

  /** How many requests acquire the machines of a test. */
  function Requests(t: Test): nat {
    if t.addPoolServerCount == 0 then 1 else 2
  }

  /** The answers from `q` up to `next` refuse the test its machines: an exception, a list of the wrong length outside
      Docker, or status 499, which is looked at only after both requests. */
  predicate RefusedAt(mode: Mode, script: seq<Reply>, t: Test, q: nat, next: nat) {
    var wrong := q < |script| && (script[q].Raised? || (!mode.docker && !ListsExactly(script[q], t.serverCount)));
    || (wrong && next == q + 1)
    || (!wrong && next == q + Requests(t) <= |script|
        && (script[q].status == 499 || script[next - 1].Raised? || script[next - 1].status == 499))
  }

  /** The script ends before the machines are granted or refused, or before the last answer of a turn. */
  predicate CutShort(mode: Mode, script: seq<Reply>, t: Test, q: nat) {
    || q >= |script|
    || (!RefusedAt(mode, script, t, q, q + 1) && !RefusedAt(mode, script, t, q, q + 2)
        && q + Requests(t) + (if mode.noLaunch && mode.docker then 0 else 1) > |script|)
  }

  /** How a turn ends for the i-th test, picked with the script read up to `q`. */
  ghost predicate Concludes(mode: Mode, script: seq<Reply>, q: nat, i: nat, t: Test, turn: Turn) {
    var n := q + Requests(t);
    match turn
    case Over => CutShort(mode, script, t, q)
    case Idle(None, next) =>
      || RefusedAt(mode, script, t, q, next)
      || (GrantedAt(mode, script, t, q) && mode.noLaunch && !mode.docker
          && next == n + 1 <= |script| && script[n].Raised?)
    case Idle(Some(l), next) =>
      && l.test == t && SourcedAt(mode, script, l, q)
      && !mode.noLaunch && next == n + 1 <= |script| && script[n].Raised?
    case Popped(k, sent, next) =>
      && k == i && GrantedAt(mode, script, t, q)
      && (sent.None? <==> mode.noLaunch)
      && (sent.Some? ==> sent.value.test == t && SourcedAt(mode, script, sent.value, q))
      && if mode.noLaunch && mode.docker then next == n
         else next == n + 1 <= |script| && script[n].Reply?
  }

  lemma AcquireIff(mode: Mode, script: seq<Reply>, q: nat, i: nat, t: Test, turn: Turn)
    requires q <= |script|
    ensures Acquire(mode, script, q, i, t) == turn <==> Concludes(mode, script, q, i, t, turn)
  {
  }

  /** What the turn makes of a search. */
  ghost predicate Follows(mode: Mode, script: seq<Reply>, pending: seq<Test>, s: Sought, turn: Turn) {
    match s
    case Silent => turn == Over
    case NoFit(next) => turn == Idle(None, next)
    case Failed(next) => turn == Idle(None, next)
    case Fit(i, q) => i < |pending| && q <= |script| && Concludes(mode, script, q, i, pending[i], turn)
  }

  /** The search behind the count at `p`. */
  ghost predicate Finds(script: seq<Reply>, p: nat, pending: seq<Test>, j: nat, s: Sought) {
    p < |script| && Counts(script[p]) && Settles(script, p + 1, pending, 0, script[p].number.value, j, s)
  }

  /** How a turn that reads from `p` on ends: without an answer the script is over; without a count, or with no machine,
      nothing happens; otherwise as the answers about the extra pool and those to the acquisition have it. */
  ghost predicate EndsAs(mode: Mode, script: seq<Reply>, p: nat, pending: seq<Test>, turn: Turn) {
    if p >= |script| then turn == Over
    else if !Counts(script[p]) || script[p].number.value == 0 then turn == Idle(None, p + 1)
    else exists j, s :: Finds(script, p, pending, j, s) && Follows(mode, script, pending, s, turn)
  }

  /** A turn is idle, sends a launch, pops a test or finds the script over for exactly these reasons. */
  lemma TurnIff(mode: Mode, script: seq<Reply>, p: nat, pending: seq<Test>, turn: Turn)
    requires p <= |script|
    ensures TurnFrom(mode, script, p, pending) == turn <==> EndsAs(mode, script, p, pending, turn)
  {
    if p < |script| && Counts(script[p]) && script[p].number.value != 0 {
      var count := script[p].number.value;
      var s := Search(script, p + 1, pending, 0, count);
      SearchBounds(script, p + 1, pending, 0, count);
      var j := SearchIs(script, p + 1, pending, 0, count);
      assert Finds(script, p, pending, j, s);
      forall j', s' | Finds(script, p, pending, j', s') ensures s' == s {
        SettledIs(script, p + 1, pending, 0, count, j', s');
      }
      if s.Fit? {
        AcquireIff(mode, script, s.next, s.i, pending[s.i], turn);
      }
    }
  }

  /** A test that is found to fit and granted its machines is popped, or its launch sent, unless the script ends or the
      release of its machines goes unanswered. */
  lemma GrantedLaunches(mode: Mode, script: seq<Reply>, p: nat, pending: seq<Test>, i: nat, q: nat)
    requires Finds(script, p, pending, i, Fit(i, q)) && script[p].number.value != 0 && i < |pending|
    requires GrantedAt(mode, script, pending[i], q)
    ensures var turn, n := TurnFrom(mode, script, p, pending), q + Requests(pending[i]);
            if mode.docker && mode.noLaunch then turn == Popped(i, None, n)
            else if n == |script| then turn == Over
            else if script[n].Reply? then turn.Popped? && turn.i == i && turn.next == n + 1
            else turn.Idle? && turn.next == n + 1 && (turn.unanswered.None? <==> mode.noLaunch)
  {
    SettledIs(script, p + 1, pending, 0, script[p].number.value, i, Fit(i, q));
  }

  // ---------- What the extra pool's count is compared with ----------

  /** The search as it would be if the extra pool had to have enough machines, and not just some. */
  function StrictSearch(script: seq<Reply>, p: nat, pending: seq<Test>, i: nat, count: int): Sought
    requires i <= |pending| && p <= |script|
    decreases |pending| - i + (|script| - p)
  {
    if i == |pending| then NoFit(p)
    else if pending[i].serverCount > count then StrictSearch(script, p, pending, i + 1, count)
    else if pending[i].addPoolServerCount == 0 then Fit(i, p)
    else if p == |script| then Silent
    else if script[p].Raised? then Failed(p + 1)
    else if script[p].status != 200 then StrictSearch(script, p + 1, pending, i, count)
    else if script[p].number.None? then Failed(p + 1)
    else if script[p].number.value == 0 || script[p].number.value < pending[i].addPoolServerCount then
      StrictSearch(script, p + 1, pending, i + 1, count)
    else Fit(i, p + 1)
  }

  lemma {:induction false} StrictBounds(script: seq<Reply>, p: nat, pending: seq<Test>, i: nat, count: int)
    requires i <= |pending| && p <= |script|
    ensures var s := StrictSearch(script, p, pending, i, count);
            s.Fit? ==> i <= s.i
    decreases |pending| - i + (|script| - p)
  {
    if i < |pending| {
      if pending[i].serverCount > count {
        StrictBounds(script, p, pending, i + 1, count);
      } else if p < |script| && script[p].Reply? {
        StrictBounds(script, p + 1, pending, i, count);
        StrictBounds(script, p + 1, pending, i + 1, count);
      }
    }
  }

  /** The search picked a test although fewer extra machines were reported than it needs. */
  predicate Short(script: seq<Reply>, pending: seq<Test>, s: Sought) {
    && s.Fit? && s.i < |pending| && pending[s.i].addPoolServerCount != 0
    && 0 < s.next <= |script| && Counts(script[s.next - 1])
    && script[s.next - 1].number.value < pending[s.i].addPoolServerCount
  }

  /** The search does what a search for enough machines would do, if and only if the answer that decided it
      reported at least as many extra machines as the picked test needs. */
  lemma {:induction false} SearchStrictIff(script: seq<Reply>, p: nat, pending: seq<Test>, i: nat, count: int)
    requires i <= |pending| && p <= |script|
    ensures var s := Search(script, p, pending, i, count);
            StrictSearch(script, p, pending, i, count) == s <==> !Short(script, pending, s)
    decreases |pending| - i + (|script| - p)
  {
    if i < |pending| {
      var t := pending[i];
      if t.serverCount > count {
        SearchStrictIff(script, p, pending, i + 1, count);
      } else if t.addPoolServerCount != 0 && p < |script| && script[p].Reply? {
        if script[p].status != 200 {
          SearchStrictIff(script, p + 1, pending, i, count);
        } else if script[p].number.Some? {
          if script[p].number.value == 0 {
            SearchStrictIff(script, p + 1, pending, i + 1, count);
          } else {
            StrictBounds(script, p + 1, pending, i + 1, count);
          }
        }
      }
    }
  }

  // ---------- The whole run ----------

  datatype State = State(pending: seq<Test>, summary: seq<Test>, sent: seq<Launch>, lost: seq<Test>, p: nat)

  /** The state after a turn. `lost` are the launches whose answer never came. */
  function Apply(s: State, t: Turn): State
    requires t.Popped? ==> t.i < |s.pending|
    requires !t.Over?
  {
    match t
    case Idle(None, next) => s.(p := next)
    case Idle(Some(l), next) => s.(sent := s.sent + [l], lost := s.lost + [l.test], p := next)
    case Popped(i, sent, next) =>
      s.(pending := s.pending[..i] + s.pending[i + 1..], summary := s.summary + [s.pending[i]],
         sent := s.sent + (if sent.Some? then [sent.value] else []), p := next)
  }

  /** The state at the last head of the loop that the script reaches. */
  function Run(mode: Mode, script: seq<Reply>, s: State): State
    requires s.p <= |script|
    decreases |script| - s.p
  {
    if s.pending == [] then s
    else
      var t := TurnFrom(mode, script, s.p, s.pending);
      TurnBounds(mode, script, s.p, s.pending);
      if t.Over? then s else Run(mode, script, Apply(s, t))
  }

  function Start(tests: seq<Test>): State {
    State(tests, [], [], [], 0)
  }

  function TestsOf(sent: seq<Launch>): seq<Test> {
    seq(|sent|, k requires 0 <= k < |sent| => sent[k].test)
  }

  /** A launch that went unanswered is sent again: one test, launched twice. */
  lemma UnansweredLaunchesTwice()
    ensures var t := Test("t", 1, 0);
            var count := Reply(200, Some(1), None);
            var machine := Reply(200, None, Some(["a"]));
            var s := Run(Mode(false, false), [count, machine, Raised, count, machine, count], Start([t]));
            s.pending == [] && s.summary == [t] && TestsOf(s.sent) == [t, t]
  {
    var t, mode := Test("t", 1, 0), Mode(false, false);
    var count, machine := Reply(200, Some(1), None), Reply(200, None, Some(["a"]));
    var script := [count, machine, Raised, count, machine, count];
    var l := Launch(t, Some(["a"]), None);
    assert TurnFrom(mode, script, 0, [t]) == Idle(Some(l), 3);
    var s := State([t], [], [l], [t], 3);
    assert Apply(Start([t]), Idle(Some(l), 3)) == s;
    assert TurnFrom(mode, script, 3, [t]) == Popped(0, Some(l), 6);
    var s' := State([], [t], [l, l], [t], 6);
    assert Apply(s, Popped(0, Some(l), 6)) == s';
    assert Run(mode, script, s) == Run(mode, script, s') == s';
    assert TestsOf([l, l]) == [t, t];
  }

  /** Only the main pool's machines are counted: a test may be launched without its extra machines. */
  lemma ExtraPoolUnchecked()
    ensures var t := Test("t", 1, 2);
            var machine, nothing := Reply(200, None, Some(["a"])), Reply(200, None, Some([]));
            var count := Reply(200, Some(1), None);
            TurnFrom(Mode(false, false), [count, count, machine, nothing, count], 0, [t]) ==
            Popped(0, Some(Launch(t, Some(["a"]), Some(nothing))), 5)
  {
    var t := Test("t", 1, 2);
    var machine, nothing := Reply(200, None, Some(["a"])), Reply(200, None, Some([]));
    var count := Reply(200, Some(1), None);
    assert Search([count, count, machine, nothing, count], 1, [t], 0, 1) == Fit(0, 2);
  }

  // ---------- The program ----------

  class TestDispatcher {
    const mode: Mode
    const script: seq<Reply>
    var pending: seq<Test>
    var summary: seq<Test>
    var sent: seq<Launch>
    var lost: seq<Test>
    var p: nat

    constructor (mode: Mode, script: seq<Reply>, tests: seq<Test>)
      ensures this.mode == mode && this.script == script && Now() == Start(tests)
    {
      this.mode, this.script, pending := mode, script, tests;
      summary, sent, lost, p := [], [], [], 0;
    }

    ghost function Now(): State
      reads this
    {
      State(pending, summary, sent, lost, p)
    }

    /** The next answer; None when the script is over. */
    method Request() returns (r: Option<Reply>)
      requires p <= |script|
      modifies this`p
      ensures if old(p) == |script| then r == None && p == old(p) else r == Some(script[old(p)]) && p == old(p) + 1
    {
      if p == |script| {
        return None;
      }
      r := Some(script[p]);
      p := p + 1;
    }

    /** The inner loop: what is found, the script having been read up to `p`. */
    method Find(serverCount: int) returns (s: Sought)
      requires p <= |script|
      modifies this`p
      ensures old(p) <= p <= |script|
      ensures s == Search(script, old(p), pending, 0, serverCount) && (!s.Silent? ==> s.next == p)
    {
      var i := 0;
      while i < |pending|
        invariant i <= |pending| && old(p) <= p <= |script|
        invariant Search(script, p, pending, i, serverCount) == Search(script, old(p), pending, 0, serverCount)
        decreases |pending| - i + (|script| - p)
      {
        if pending[i].serverCount <= serverCount {
          if pending[i].addPoolServerCount != 0 {
            var r := Request();
            if r.None? {
              return Silent;
            }
            if r.value.Raised? {
              return Failed(p);
            }
            if r.value.status == 200 {
              if r.value.number.None? {
                return Failed(p);
              } else if r.value.number.value == 0 {
                i := i + 1;
              } else {
                return Fit(i, p);
              }
            }
          } else {
            return Fit(i, p);
          }
        } else {
          i := i + 1;
        }
      }
      s := NoFit(p);
    }

    /** From the request for machines to the pop; false when the script is over. */
    method LaunchTest(i: nat) returns (more: bool)
      requires p <= |script| && i < |pending|
      modifies this
      ensures var t := Acquire(mode, script, old(p), i, old(pending)[i]);
              if t.Over? then !more && Now() == old(Now()).(p := p)
              else more && (t.Popped? ==> t.i == i) && Now() == Apply(old(Now()), t)
    {
      var t := pending[i];
      var r := Request();
      if r.None? {
        return false;
      }
      if r.value.Raised? {
        return true;
      }
      if !mode.docker {
        if r.value.machines.None? {
          return true;
        }
        if |r.value.machines.value| != t.serverCount {
          return true;
        }
      }
      var r2: Option<Reply> := None;
      if t.addPoolServerCount != 0 {
        r2 := Request();
        if r2.None? {
          return false;
        }
        if r2.value.Raised? {
          return true;
        }
      }
      if r.value.status == 499 || (t.addPoolServerCount != 0 && r2.value.status == 499) {
        return true;
      }
      var launch := if mode.docker then Launch(t, None, None) else Launch(t, r.value.machines, r2);
      more := SendLaunch(i, launch);
    }

    method SendLaunch(i: nat, launch: Launch) returns (more: bool)
      requires p <= |script| && i < |pending| && launch.test == pending[i]
      modifies this
      ensures var t := Send(mode, script, old(p), i, launch);
              if t.Over? then !more && Now() == old(Now()).(p := p)
              else more && (t.Popped? ==> t.i == i) && Now() == Apply(old(Now()), t)
    {
      if mode.noLaunch {
        if !mode.docker {
          var r := Request();
          if r.None? {
            return false;
          }
          if r.value.Raised? {
            return true;
          }
        }
      } else {
        var r := Request();
        if r.None? {
          return false;
        }
        sent := sent + [launch];
        if r.value.Raised? {
          lost := lost + [launch.test];
          return true;
        }
      }
      var popped := pending[i];
      pending := pending[..i] + pending[i + 1..];
      summary := summary + [popped];
      more := true;
    }

    /** The body of the launch loop; false when the script is over. */
    method TakeTurn() returns (more: bool)
      requires p <= |script|
      modifies this
      ensures var t := TurnFrom(mode, script, old(p), old(pending));
              if t.Over? then !more && Now() == old(Now()).(p := p)
              else more && (t.Popped? ==> t.i < |old(pending)|) && Now() == Apply(old(Now()), t)
    {
      var r := Request();
      if r.None? {
        return false;
      }
      if r.value.Raised? || r.value.status != 200 || r.value.number.None? || r.value.number.value == 0 {
        return true;
      }
      var s := Find(r.value.number.value);
      SearchBounds(script, old(p) + 1, pending, 0, r.value.number.value);
      match s
      case Silent => more := false;
      case NoFit(_) => more := true;
      case Failed(_) => more := true;
      case Fit(i, _) => more := LaunchTest(i);
    }

    /** The launch loop, for as long as the script goes: true when everything is launched. */
    method LaunchAll() returns (done: bool)
      requires p <= |script|
      modifies this
      ensures var s := Run(mode, script, old(Now()));
              done == (s.pending == []) && Now() == s.(p := p) && (done ==> Now() == s)
    {
      while pending != []
        invariant p <= |script|
        invariant Run(mode, script, Now()) == Run(mode, script, old(Now()))
        decreases |script| - p
      {
        TurnBounds(mode, script, p, pending);
        var more := TakeTurn();
        if !more {
          return false;
        }
      }
      done := true;
    }
  }
}
