/**
 Pipelined multi-key operations of the memcached client (`getMulti`, `setMulti`,
 lib/mc_bin_client.py): quiet requests are sent for all keys at once, then one NOOP per vBucket
 touched, and replies are read until that many NOOP replies have come back.
 */
module MultiOps {
  import opened Wrappers
  import opened Bytes
  import Crc32

  type Key = seq<bv8>
  type Value = seq<byte>
  type Item = (Key, Value)
  type Status = n: nat | n > 0 witness 1
  type Flags = n: nat | n < 0x1_0000_0000

  datatype Reply = Reply(tag: nat, status: nat, cas: nat, data: seq<byte>)

  /** What the server has to say about a key. */
  datatype GetOutcome = Hit(flags: Flags, cas: nat, value: Value) | Miss | Refused(status: Status)

  /** Any in-order server: how it answers a get for a vBucket, and how a set changes it and fails, if it does. */
  datatype Server<!S> = Server(
    lookup: (S, Key, int) -> GetOutcome,
    store: (S, Key, Value, int) -> (S, Option<Status>))

  datatype Fetched = Fetched(flags: nat, cas: nat, value: Value)

  /** The opaque that marks a NOOP, above every key's. */
  function Terminal(n: nat): nat {
    n + 10
  }

  /** A NOOP is always answered. */
  function Noops(n: nat, tag: nat): seq<Reply> {
    if n == 0 then [] else [Reply(tag, 0, 0, [])] + Noops(n - 1, tag)
  }

  // ---------- Gets ----------

  datatype GetResult =
    Values(values: map<Key, Fetched>) | MemcachedError(status: nat) | KeyError | StructError | Blocked

  /** A quiet get is answered on a hit or an error, and not on a miss. */
  function GetAnswer(g: GetOutcome, tag: nat): seq<Reply> {
    match g
    case Hit(flags, cas, value) => [Reply(tag, 0, cas, PackInt(4, flags) + value)]
    case Miss => []
    case Refused(status) => [Reply(tag, status, 0, [])]
  }

  /** The answers to the gets of the keys from index `i` on. */
  function GetAnswers(look: Key -> GetOutcome, keys: seq<Key>, i: nat): seq<Reply>
    requires i <= |keys|
    decreases |keys| - i
  {
    if i == |keys| then [] else GetAnswer(look(keys[i]), i) + GetAnswers(look, keys, i + 1)
  }

  /** Reading replies until `rounds` NOOP replies are in. */
  function Collect(keys: seq<Key>, rounds: nat, rv: map<Key, Fetched>, inbox: seq<Reply>): (GetResult, seq<Reply>)
    decreases |inbox|
  {
    if rounds == 0 then (Values(rv), inbox)
    else if inbox == [] then (Blocked, [])
    else
      var r, rest := inbox[0], inbox[1..];
      if r.status != 0 then (MemcachedError(r.status), rest)
      else if r.tag == Terminal(|keys|) then Collect(keys, rounds - 1, rv, rest)
      else if |r.data| < 4 then (StructError, rest)
      else if r.tag >= |keys| then (KeyError, rest)
      else Collect(keys, rounds, rv[keys[r.tag] := Fetched(UnpackInt(r.data[..4]), r.cas, r.data[4..])], rest)
  }

  /** The simple form: one get per key, keeping the hits. */
  function GetEach(look: Key -> GetOutcome, keys: seq<Key>): map<Key, Fetched> {
    map k | k in keys && look(k).Hit? :: Fetched(look(k).flags, look(k).cas, look(k).value)
  }

  /** `rv` after the hits among the keys with index in [i, j) have been stored. */
  function Store(look: Key -> GetOutcome, keys: seq<Key>, i: nat, j: nat, rv: map<Key, Fetched>): map<Key, Fetched>
    requires i <= j <= |keys|
    decreases j - i
  {
    if i == j then rv
    else Store(look, keys, i + 1, j, Keep(look(keys[i]), keys[i], rv))
  }

  ghost predicate Right(look: Key -> GetOutcome, rv: map<Key, Fetched>) {
    forall k :: k in rv ==> look(k).Hit? && rv[k] == Fetched(look(k).flags, look(k).cas, look(k).value)
  }

  ghost predicate Unrefused(look: Key -> GetOutcome, keys: seq<Key>, i: nat, j: nat)
    requires j <= |keys|
  {
    forall k :: i <= k < j ==> !look(keys[k]).Refused?
  }

  lemma DataBack(flags: Flags, value: Value)
    ensures var data := PackInt(4, flags) + value;
            |data| >= 4 && UnpackInt(data[..4]) == flags && data[4..] == value
  {
    UnpackPackInt(4, flags);
    assert (PackInt(4, flags) + value)[..4] == PackInt(4, flags);
  }

  /** One get at a time. */
  lemma GetNext(look: Key -> GetOutcome, keys: seq<Key>, i: nat, before: seq<Reply>)
    requires i < |keys|
    ensures before + GetAnswer(look(keys[i]), i) + GetAnswers(look, keys, i + 1) == before + GetAnswers(look, keys, i)
  {
    var one, more := GetAnswer(look(keys[i]), i), GetAnswers(look, keys, i + 1);
    assert before + one + more == before + (one + more);
  }

  /** `rv` after a get's answer has been stored. */
  function Keep(g: GetOutcome, k: Key, rv: map<Key, Fetched>): map<Key, Fetched> {
    if g.Hit? then rv[k := Fetched(g.flags, g.cas, g.value)] else rv
  }

  /** Reading one get's answer. */
  lemma CollectAnswer(g: GetOutcome, keys: seq<Key>, i: nat, rounds: nat, rv: map<Key, Fetched>, rest: seq<Reply>)
    requires i < |keys| && rounds > 0 && !g.Refused?
    ensures Collect(keys, rounds, rv, GetAnswer(g, i) + rest) == Collect(keys, rounds, Keep(g, keys[i], rv), rest)
  {
    var answers := GetAnswer(g, i) + rest;
    if g.Hit? {
      DataBack(g.flags, g.value);
      assert answers[1..] == rest;
    } else {
      assert answers == rest;
    }
  }

  /** Reading the answers of unrefused gets stores their hits and goes on with what follows. */
  lemma {:induction false} CollectAnswers(look: Key -> GetOutcome, keys: seq<Key>, i: nat, j: nat, rounds: nat,
                                          rv: map<Key, Fetched>, after: seq<Reply>)
    requires i <= j <= |keys| && rounds > 0 && Unrefused(look, keys, i, j)
    ensures Collect(keys, rounds, rv, GetAnswers(look, keys, i) + after) ==
            Collect(keys, rounds, Store(look, keys, i, j, rv), GetAnswers(look, keys, j) + after)
    decreases j - i
  {
    if i < j {
      var g, rest := look(keys[i]), GetAnswers(look, keys, i + 1) + after;
      assert GetAnswers(look, keys, i) + after == GetAnswer(g, i) + rest;
      CollectAnswer(g, keys, i, rounds, rv, rest);
      CollectAnswers(look, keys, i + 1, j, rounds, Keep(g, keys[i], rv), after);
    }
  }

  /** The first refused get ends the whole call with its status; the replies behind it, the NOOPs'
      included, stay unread for the next call. */
  lemma CollectRefused(look: Key -> GetOutcome, keys: seq<Key>, j: nat, rounds: nat, after: seq<Reply>)
    requires j < |keys| && rounds > 0 && look(keys[j]).Refused? && Unrefused(look, keys, 0, j)
    ensures Collect(keys, rounds, map[], GetAnswers(look, keys, 0) + after) ==
            (MemcachedError(look(keys[j]).status), GetAnswers(look, keys, j + 1) + after)
  {
    CollectAnswers(look, keys, 0, j, rounds, map[], after);
    var g, rest := look(keys[j]), GetAnswers(look, keys, j + 1) + after;
    assert GetAnswers(look, keys, j) + after == GetAnswer(g, j) + rest;
    CollectRefusal(g, keys, j, rounds, Store(look, keys, 0, j, map[]), rest);
  }

  lemma CollectRefusal(g: GetOutcome, keys: seq<Key>, i: nat, rounds: nat, rv: map<Key, Fetched>, rest: seq<Reply>)
    requires rounds > 0 && g.Refused?
    ensures Collect(keys, rounds, rv, GetAnswer(g, i) + rest) == (MemcachedError(g.status), rest)
  {
    assert (GetAnswer(g, i) + rest)[1..] == rest;
  }

  lemma {:induction false} CollectNoops(keys: seq<Key>, n: nat, rv: map<Key, Fetched>)
    ensures Collect(keys, n, rv, Noops(n, Terminal(|keys|))) == (Values(rv), [])
    decreases n
  {
    if n > 0 {
      CollectNoops(keys, n - 1, rv);
    }
  }

  lemma {:induction false} StoreIs(look: Key -> GetOutcome, keys: seq<Key>, i: nat, rv: map<Key, Fetched>)
    requires i <= |keys| && Right(look, rv)
    ensures var m := Store(look, keys, i, |keys|, rv);
            Right(look, m) && forall k :: k in m <==> k in rv || (look(k).Hit? && k in keys[i..])
    decreases |keys| - i
  {
    if i < |keys| {
      var k := keys[i];
      StoreIs(look, keys, i + 1, Keep(look(k), k, rv));
      assert keys[i..] == [k] + keys[i + 1..];
    }
  }

  /** The pipelined get is the map of the individual gets, and it consumes every reply however many
      vBuckets it touched. */
  lemma GetMultiIsGetEach(look: Key -> GetOutcome, keys: seq<Key>, rounds: nat)
    requires (rounds == 0 <==> keys == []) && Unrefused(look, keys, 0, |keys|)
    ensures Collect(keys, rounds, map[], GetAnswers(look, keys, 0) + Noops(rounds, Terminal(|keys|))) ==
            (Values(GetEach(look, keys)), [])
  {
    var noops := Noops(rounds, Terminal(|keys|));
    if keys == [] {
      assert GetEach(look, keys) == map[];
    } else {
      CollectAnswers(look, keys, 0, |keys|, rounds, map[], noops);
      StoreIs(look, keys, 0, map[]);
      assert keys[0..] == keys;
      assert Store(look, keys, 0, |keys|, map[]) == GetEach(look, keys);
      CollectNoops(keys, rounds, GetEach(look, keys));
      assert GetAnswers(look, keys, |keys|) + noops == noops;
    }
  }

  // ---------- Sets ----------

  /** The simple form: one set per item from index `i` on; the server afterwards and the errors. */
  function SetEach<S>(put: (S, Item) -> (S, Option<Status>), s: S, items: seq<Item>, i: nat): (S, seq<Status>)
    requires i <= |items|
    decreases |items| - i
  {
    if i == |items| then (s, [])
    else
      var (s', err) := put(s, items[i]);
      var (s'', errs) := SetEach(put, s', items, i + 1);
      (s'', (if err.Some? then [err.value] else []) + errs)
  }

  /** A quiet set is answered only when it fails. */
  function SetAnswer(err: Option<Status>, tag: nat): seq<Reply> {
    if err.Some? then [Reply(tag, err.value, 0, [])] else []
  }

  function SetAnswers<S>(put: (S, Item) -> (S, Option<Status>), s: S, items: seq<Item>, i: nat): seq<Reply>
    requires i <= |items|
    decreases |items| - i
  {
    if i == |items| then []
    else
      var (s', err) := put(s, items[i]);
      SetAnswer(err, i) + SetAnswers(put, s', items, i + 1)
  }

  /** Reading replies, adding the errors to `failed`, until `rounds` NOOP replies are in; None when replies run out. */
  function Errors(terminal: nat, rounds: nat, failed: seq<Status>, inbox: seq<Reply>): (Option<seq<Status>>, seq<Reply>)
    decreases |inbox|
  {
    if rounds == 0 then (Some(failed), inbox)
    else if inbox == [] then (None, [])
    else
      var r, rest := inbox[0], inbox[1..];
      if r.status != 0 then Errors(terminal, rounds, failed + [r.status], rest)
      else Errors(terminal, if r.tag == terminal then rounds - 1 else rounds, failed, rest)
  }

  lemma {:induction false} ErrorsNoops(terminal: nat, n: nat, failed: seq<Status>)
    ensures Errors(terminal, n, failed, Noops(n, terminal)) == (Some(failed), [])
    decreases n
  {
    if n > 0 {
      ErrorsNoops(terminal, n - 1, failed);
    }
  }

  /** One set at a time. */
  lemma SetNext<S>(put: (S, Item) -> (S, Option<Status>), s: S, items: seq<Item>, i: nat, before: seq<Reply>)
    requires i < |items|
    ensures var (s', err) := put(s, items[i]);
            && SetEach(put, s', items, i + 1).0 == SetEach(put, s, items, i).0
            && before + SetAnswer(err, i) + SetAnswers(put, s', items, i + 1) == before + SetAnswers(put, s, items, i)
  {
    var (s', err) := put(s, items[i]);
    var more := SetAnswers(put, s', items, i + 1);
    assert before + SetAnswer(err, i) + more == before + (SetAnswer(err, i) + more);
  }

  /** Reading one item's answer. */
  lemma ErrorsAnswer(err: Option<Status>, tag: nat, terminal: nat, rounds: nat, failed: seq<Status>, rest: seq<Reply>)
    requires rounds > 0
    ensures Errors(terminal, rounds, failed, SetAnswer(err, tag) + rest) ==
            Errors(terminal, rounds, failed + (if err.Some? then [err.value] else []), rest)
  {
    if err.Some? {
      assert (SetAnswer(err, tag) + rest)[1..] == rest;
    } else {
      assert SetAnswer(err, tag) + rest == rest && failed + [] == failed;
    }
  }

  /** Reading the answers to the sets from `i` on adds their errors and goes on with what follows. */
  lemma {:induction false} ErrorsAnswers<S>(put: (S, Item) -> (S, Option<Status>), s: S, items: seq<Item>, i: nat,
                                            terminal: nat, rounds: nat, failed: seq<Status>, after: seq<Reply>)
    requires i <= |items| && rounds > 0
    ensures Errors(terminal, rounds, failed, SetAnswers(put, s, items, i) + after) ==
            Errors(terminal, rounds, failed + SetEach(put, s, items, i).1, after)
    decreases |items| - i
  {
    var answers, errs := SetAnswers(put, s, items, i), SetEach(put, s, items, i).1;
    if i == |items| {
      assert answers + after == after && failed + errs == failed;
    } else {
      var (s', err) := put(s, items[i]);
      var answers', errs' := SetAnswers(put, s', items, i + 1), SetEach(put, s', items, i + 1).1;
      var more: seq<Status> := if err.Some? then [err.value] else [];
      assert answers + after == SetAnswer(err, i) + (answers' + after);
      ErrorsAnswer(err, i, terminal, rounds, failed, answers' + after);
      ErrorsAnswers(put, s', items, i + 1, terminal, rounds, failed + more, after);
      assert failed + more + errs' == failed + errs;
    }
  }

  /** The pipelined set returns one error per item that fails when the items are set one by one in
      the order sent, and consumes every reply. */
  lemma SetMultiIsSetEach<S>(put: (S, Item) -> (S, Option<Status>), s: S, items: seq<Item>, rounds: nat)
    requires rounds == 0 <==> items == []
    ensures Errors(Terminal(|items|), rounds, [], SetAnswers(put, s, items, 0) + Noops(rounds, Terminal(|items|))) ==
            (Some(SetEach(put, s, items, 0).1), [])
  {
    var noops, errs := Noops(rounds, Terminal(|items|)), SetEach(put, s, items, 0).1;
    if rounds > 0 {
      ErrorsAnswers(put, s, items, 0, Terminal(|items|), rounds, [], noops);
      ErrorsNoops(Terminal(|items|), rounds, errs);
      assert [] + errs == errs;
    }
  }

  // ---------- Any replies at all ----------

  /** The answer to a NOOP. */
  predicate IsNoop(r: Reply, terminal: nat) {
    r.status == 0 && r.tag == terminal
  }

  function NoopsIn(replies: seq<Reply>, terminal: nat): nat {
    if replies == [] then 0 else (if IsNoop(replies[0], terminal) then 1 else 0) + NoopsIn(replies[1..], terminal)
  }

  /** The replies hold that many NOOPs, the last of them at their end. */
  predicate EndsWithNoop(replies: seq<Reply>, terminal: nat, rounds: nat) {
    && NoopsIn(replies, terminal) == rounds
    && (replies != [] ==> IsNoop(replies[|replies| - 1], terminal))
  }

  lemma {:induction false} NoopLast(replies: seq<Reply>, terminal: nat)
    requires replies != [] && IsNoop(replies[|replies| - 1], terminal)
    ensures NoopsIn(replies, terminal) > 0
    decreases |replies|
  {
    if |replies| > 1 {
      NoopLast(replies[1..], terminal);
    }
  }

  /** The errors among the replies, in order. */
  function StatusesOf(replies: seq<Reply>): seq<Status> {
    if replies == [] then []
    else (if replies[0].status != 0 then [replies[0].status] else []) + StatusesOf(replies[1..])
  }

  /** Whatever replies are waiting, `setMulti` reads up to as many NOOPs as it sent and returns every error before; it
      waits for ever if there are fewer. */
  lemma {:induction false} ErrorsRead(terminal: nat, rounds: nat, failed: seq<Status>, a: seq<Reply>, b: seq<Reply>)
    ensures EndsWithNoop(a, terminal, rounds) ==>
              Errors(terminal, rounds, failed, a + b) == (Some(failed + StatusesOf(a)), b)
    ensures NoopsIn(a, terminal) < rounds ==> Errors(terminal, rounds, failed, a) == (None, [])
    decreases |a|
  {
    if a == [] {
      assert a + b == b && failed + [] == failed;
    } else {
      var r, rest := a[0], a[1..];
      assert (a + b)[1..] == rest + b;
      if EndsWithNoop(a, terminal, rounds) {
        NoopLast(a, terminal);
      }
      if rounds > 0 {
        var more: seq<Status> := if r.status != 0 then [r.status] else [];
        ErrorsRead(terminal, if IsNoop(r, terminal) then rounds - 1 else rounds, failed + more, rest, b);
        assert failed + more + StatusesOf(rest) == failed + (more + StatusesOf(rest));
        assert failed + [] == failed;
      }
    }
  }

  /** A reply that `getMulti` takes: a NOOP's, or a value for one of its keys. */
  predicate Taken(keys: seq<Key>, r: Reply) {
    r.status == 0 && (r.tag == Terminal(|keys|) || (r.tag < |keys| && |r.data| >= 4))
  }

  /** Its position among the replies is that of the last value for the key. */
  function Latest(keys: seq<Key>, replies: seq<Reply>, k: Key): (i: Option<nat>)
    ensures i.Some? ==> i.value < |replies| && For(keys, replies[i.value], k)
                        && forall j :: i.value < j < |replies| ==> !For(keys, replies[j], k)
    ensures i.None? ==> forall j :: 0 <= j < |replies| ==> !For(keys, replies[j], k)
  {
    if replies == [] then None
    else
      var later := Latest(keys, replies[1..], k);
      if later.Some? then Some(later.value + 1) else if For(keys, replies[0], k) then Some(0) else None
  }

  predicate For(keys: seq<Key>, r: Reply, k: Key) {
    r.tag < |keys| && keys[r.tag] == k
  }

  /** The map holds the last value given for each key, and otherwise what was in `rv`. */
  ghost predicate HoldsLatest(keys: seq<Key>, rv: map<Key, Fetched>, a: seq<Reply>, m: map<Key, Fetched>) {
    forall k :: (k in m <==> k in rv || Latest(keys, a, k).Some?) && (k in m ==> m[k] == LatestOf(keys, rv, a, k))
  }

  function LatestOf(keys: seq<Key>, rv: map<Key, Fetched>, a: seq<Reply>, k: Key): Fetched
    requires k in rv || Latest(keys, a, k).Some?
  {
    var i := Latest(keys, a, k);
    if i.None? then rv[k] else ValueOf(a[i.value])
  }

  function ValueOf(r: Reply): Fetched {
    if |r.data| < 4 then Fetched(0, r.cas, []) else Fetched(UnpackInt(r.data[..4]), r.cas, r.data[4..])
  }

  lemma HoldsCons(keys: seq<Key>, rv: map<Key, Fetched>, a: seq<Reply>, m: map<Key, Fetched>)
    requires a != [] && Taken(keys, a[0])
    requires HoldsLatest(keys, if a[0].tag < |keys| then rv[keys[a[0].tag] := ValueOf(a[0])] else rv, a[1..], m)
    ensures HoldsLatest(keys, rv, a, m)
  {
    var rv' := if a[0].tag < |keys| then rv[keys[a[0].tag] := ValueOf(a[0])] else rv;
    forall k
      ensures (k in m <==> k in rv || Latest(keys, a, k).Some?) && (k in m ==> m[k] == LatestOf(keys, rv, a, k)) {
      assert k in m ==> m[k] == LatestOf(keys, rv', a[1..], k);
    }
  }

  /** Whatever replies are waiting, `getMulti` reads up to as many NOOPs as it sent and returns the last value given for
      each key; it waits for ever if there are fewer; and the first reply that it does not take ends it. */
  lemma {:induction false} CollectRead(keys: seq<Key>, rounds: nat, rv: map<Key, Fetched>, a: seq<Reply>, b: seq<Reply>)
    requires forall r :: r in a ==> Taken(keys, r)
    ensures EndsWithNoop(a, Terminal(|keys|), rounds) ==>
              var (r, rest) := Collect(keys, rounds, rv, a + b);
              rest == b && r.Values? && HoldsLatest(keys, rv, a, r.values)
    ensures NoopsIn(a, Terminal(|keys|)) < rounds ==>
              && Collect(keys, rounds, rv, a) == (Blocked, [])
              && (b != [] && !Taken(keys, b[0]) ==>
                    Collect(keys, rounds, rv, a + b) ==
                    (if b[0].status != 0 then MemcachedError(b[0].status)
                     else if |b[0].data| < 4 then StructError else KeyError, b[1..]))
    decreases |a|
  {
    var terminal := Terminal(|keys|);
    if a == [] {
      assert a + b == b;
    } else {
      var r, rest := a[0], a[1..];
      assert Taken(keys, r) && (a + b)[1..] == rest + b;
      if EndsWithNoop(a, terminal, rounds) {
        NoopLast(a, terminal);
      }
      if rounds > 0 {
        var rv' := if r.tag < |keys| then rv[keys[r.tag] := ValueOf(r)] else rv;
        CollectRead(keys, if IsNoop(r, terminal) then rounds - 1 else rounds, rv', rest, b);
        var (out, _) := Collect(keys, rounds, rv, a + b);
        if EndsWithNoop(a, terminal, rounds) {
          HoldsCons(keys, rv, a, out.values);
        }
      }
    }
  }

  // ---------- The client ----------

  /** Maps a key and the caller's vBucket argument to the vBucket that the request is sent to. */
  type Locator = (Key, int) -> nat

  function Look<S(!new)>(server: Server<S>, s: S, locate: Locator, vbucket: int): Key -> GetOutcome {
    k => server.lookup(s, k, locate(k, vbucket))
  }

  function Put<S(!new)>(server: Server<S>, locate: Locator, vbucket: int): (S, Item) -> (S, Option<Status>) {
    (s, kv: Item) => server.store(s, kv.0, kv.1, locate(kv.0, vbucket))
  }

  /** The vBuckets touched. */
  function Touched(keys: seq<Key>, locate: Locator, vbucket: int): set<nat> {
    set k | k in keys :: locate(k, vbucket)
  }

  function KeysOf(items: seq<Item>): seq<Key> {
    seq(|items|, i requires 0 <= i < |items| => items[i].0)
  }

  lemma TouchedNext(keys: seq<Key>, i: nat, locate: Locator, vbucket: int)
    requires i < |keys|
    ensures Touched(keys[..i + 1], locate, vbucket) == Touched(keys[..i], locate, vbucket) + {locate(keys[i], vbucket)}
  {
    assert keys[..i + 1] == keys[..i] + [keys[i]];
  }

  /** One connection and the server at its other end; the answers not read yet wait in `inbox`. */
  class McClient<S(!new)> {
    const server: Server<S>
    const locate: Locator
    var remote: S
    var inbox: seq<Reply>
    var vbucketId: nat

    constructor (server: Server<S>, remote: S, vbucketCount: bv32)
      ensures this.server == server && this.remote == remote && inbox == []
      ensures forall k, vb :: locate(k, vb) == Crc32.SetVBucket(k, vb, vbucketCount)
    {
      this.server, this.remote := server, remote;
      locate := (k, vb) => Crc32.SetVBucket(k, vb, vbucketCount);
      inbox, vbucketId := [], 0;
    }

    method SendGetQ(key: Key, tag: nat)
      modifies this`inbox
      ensures inbox == old(inbox) + GetAnswer(server.lookup(remote, key, vbucketId), tag)
    {
      inbox := inbox + GetAnswer(server.lookup(remote, key, vbucketId), tag);
    }

    method SendSetQ(key: Key, value: Value, tag: nat)
      modifies this`inbox, this`remote
      ensures var (s, err) := server.store(old(remote), key, value, vbucketId);
              remote == s && inbox == old(inbox) + SetAnswer(err, tag)
    {
      var (s, err) := server.store(remote, key, value, vbucketId);
      remote, inbox := s, inbox + SetAnswer(err, tag);
    }

    /** One NOOP per vBucket touched. */
    method SendNoops(vbs: set<nat>, tag: nat)
      modifies this`inbox, this`vbucketId
      ensures inbox == old(inbox) + Noops(|vbs|, tag)
    {
      var todo := vbs;
      while todo != {}
        invariant inbox + Noops(|todo|, tag) == old(inbox) + Noops(|vbs|, tag)
      {
        var vb :| vb in todo;
        ghost var before, n := inbox, |todo|;
        todo := todo - {vb};
        vbucketId := vb;
        inbox := inbox + [Reply(tag, 0, 0, [])];
        assert inbox + Noops(|todo|, tag) == before + Noops(n, tag);
      }
      assert inbox + [] == inbox;
    }

    /** The sending half of `getMulti`. */
    method SendGets(keys: seq<Key>, vbucket: int) returns (vbs: set<nat>)
      modifies this`inbox, this`vbucketId
      ensures vbs == Touched(keys, locate, vbucket)
      ensures inbox == old(inbox) + GetAnswers(Look(server, remote, locate, vbucket), keys, 0)
    {
      ghost var look := Look(server, remote, locate, vbucket);
      vbs := {};
      for i := 0 to |keys|
        invariant vbs == Touched(keys[..i], locate, vbucket)
        invariant inbox + GetAnswers(look, keys, i) == old(inbox) + GetAnswers(look, keys, 0)
      {
        ghost var before := inbox;
        vbucketId := locate(keys[i], vbucket);
        vbs := vbs + {vbucketId};
        SendGetQ(keys[i], i);
        TouchedNext(keys, i, locate, vbucket);
        GetNext(look, keys, i, before);
      }
      assert keys[..|keys|] == keys && inbox + [] == inbox;
    }

    /** `getMulti`, for every server and whatever replies are still waiting from earlier calls. */
    method GetMulti(keys: seq<Key>, vbucket: int) returns (r: GetResult)
      modifies this`inbox, this`vbucketId
      ensures var rounds := |Touched(keys, locate, vbucket)|;
              (r, inbox) == Collect(keys, rounds, map[],
                                    old(inbox) + GetAnswers(Look(server, remote, locate, vbucket), keys, 0)
                                    + Noops(rounds, Terminal(|keys|)))
      ensures var look := Look(server, remote, locate, vbucket);
              old(inbox) == [] && Unrefused(look, keys, 0, |keys|) ==> r == Values(GetEach(look, keys)) && inbox == []
    {
      var terminal := Terminal(|keys|);
      var vbs := SendGets(keys, vbucket);
      SendNoops(vbs, terminal);
      ghost var look := Look(server, remote, locate, vbucket);
      if old(inbox) == [] && Unrefused(look, keys, 0, |keys|) {
        assert inbox == GetAnswers(look, keys, 0) + Noops(|vbs|, terminal);
        assert keys != [] ==> locate(keys[0], vbucket) in vbs;
        GetMultiIsGetEach(look, keys, |vbs|);
      }
      r := CollectReplies(keys, vbs);
    }

    /** The reading half of `getMulti`. */
    method CollectReplies(keys: seq<Key>, vbs: set<nat>) returns (r: GetResult)
      modifies this`inbox, this`vbucketId
      ensures (r, inbox) == Collect(keys, |vbs|, map[], old(inbox))
    {
      var rv := map[];
      var todo := vbs;
      while todo != {}
        invariant Collect(keys, |todo|, rv, inbox) == Collect(keys, |vbs|, map[], old(inbox))
      {
        var vb :| vb in todo;
        todo := todo - {vb};
        vbucketId := vb;
        var done := false;
        while !done
          invariant Collect(keys, |todo| + if done then 0 else 1, rv, inbox) == Collect(keys, |vbs|, map[], old(inbox))
          decreases |inbox|, !done
        {
          if inbox == [] {
            return Blocked;
          }
          var reply := inbox[0];
          inbox := inbox[1..];
          if reply.status != 0 {
            return MemcachedError(reply.status);
          }
          if reply.tag != Terminal(|keys|) {
            if |reply.data| < 4 {
              return StructError;
            }
            if reply.tag >= |keys| {
              return KeyError;
            }
            rv := rv[keys[reply.tag] := Fetched(UnpackInt(reply.data[..4]), reply.cas, reply.data[4..])];
          } else {
            done := true;
          }
        }
      }
      r := Values(rv);
    }

    /** The sending half of `setMulti`. */
    method SendSets(items: seq<Item>, vbucket: int) returns (vbs: set<nat>)
      modifies this`inbox, this`vbucketId, this`remote
      ensures vbs == Touched(KeysOf(items), locate, vbucket)
      ensures remote == SetEach(Put(server, locate, vbucket), old(remote), items, 0).0
      ensures inbox == old(inbox) + SetAnswers(Put(server, locate, vbucket), old(remote), items, 0)
    {
      ghost var put, keys := Put(server, locate, vbucket), KeysOf(items);
      vbs := {};
      for i := 0 to |items|
        invariant vbs == Touched(keys[..i], locate, vbucket)
        invariant SetEach(put, remote, items, i).0 == SetEach(put, old(remote), items, 0).0
        invariant inbox + SetAnswers(put, remote, items, i) == old(inbox) + SetAnswers(put, old(remote), items, 0)
      {
        ghost var before, s := inbox, remote;
        vbucketId := locate(items[i].0, vbucket);
        vbs := vbs + {vbucketId};
        SendSetQ(items[i].0, items[i].1, i);
        TouchedNext(keys, i, locate, vbucket);
        SetNext(put, s, items, i, before);
      }
      assert keys[..|items|] == keys && inbox + [] == inbox;
    }

    /** `setMulti`: the errors, or None when the replies run out. */
    method SetMulti(items: seq<Item>, vbucket: int) returns (r: Option<seq<Status>>)
      modifies this`inbox, this`vbucketId, this`remote
      ensures remote == SetEach(Put(server, locate, vbucket), old(remote), items, 0).0
      ensures var rounds := |Touched(KeysOf(items), locate, vbucket)|;
              (r, inbox) == Errors(Terminal(|items|), rounds, [],
                                   old(inbox) + SetAnswers(Put(server, locate, vbucket), old(remote), items, 0)
                                   + Noops(rounds, Terminal(|items|)))
      ensures old(inbox) == [] ==>
                inbox == [] && r == Some(SetEach(Put(server, locate, vbucket), old(remote), items, 0).1)
    {
      var terminal := Terminal(|items|);
      var vbs := SendSets(items, vbucket);
      SendNoops(vbs, terminal);
      ghost var put := Put(server, locate, vbucket);
      if old(inbox) == [] {
        assert inbox == SetAnswers(put, old(remote), items, 0) + Noops(|vbs|, terminal);
        assert items != [] ==> locate(KeysOf(items)[0], vbucket) in vbs;
        SetMultiIsSetEach(put, old(remote), items, |vbs|);
      }
      r := CollectErrors(terminal, vbs);
    }

    /** The reading half of `setMulti`. */
    method CollectErrors(terminal: nat, vbs: set<nat>) returns (r: Option<seq<Status>>)
      modifies this`inbox, this`vbucketId
      ensures (r, inbox) == Errors(terminal, |vbs|, [], old(inbox))
    {
      var failed: seq<Status> := [];
      var todo := vbs;
      while todo != {}
        invariant Errors(terminal, |todo|, failed, inbox) == Errors(terminal, |vbs|, [], old(inbox))
      {
        var vb :| vb in todo;
        todo := todo - {vb};
        vbucketId := vb;
        var done := false;
        while !done
          invariant Errors(terminal, |todo| + if done then 0 else 1, failed, inbox) ==
                    Errors(terminal, |vbs|, [], old(inbox))
          decreases |inbox|, !done
        {
          if inbox == [] {
            return None;
          }
          var reply := inbox[0];
          inbox := inbox[1..];
          if reply.status != 0 {
            failed := failed + [reply.status];
          } else {
            done := reply.tag == terminal;
          }
        }
      }
      r := Some(failed);
    }
  }
}
