/**
 One upsert pass of the document loader with its retries
 (couchbase_utils/bucket_utils/thanosied.py): keys that a bulk upsert reports as failed are sent
 again, each under the document number that is read back out of the key.
 */
module UpsertRetry {
  import opened Wrappers
  import Strings
  import Lists
  import LoadSplit

  type Key = string

  /** A key with the number of the document sent under it. */
  type Doc = (Key, int)

  // ---------- Keys ----------

  function Text(x: int): (s: string)
    ensures s != []
  {
    if x < 0 then ['-'] + Strings.Str(-x) else Strings.Str(x)
  }

  function KeyOf(prefix: string, x: int): Key {
    prefix + Text(x)
  }

  /** `int(key.split('_')[1])`: None for an IndexError or a ValueError. */
  function DocNumber(key: Key): Option<int> {
    var parts := Strings.Split(key, '_');
    if |parts| < 2 then None else Strings.ParseInt(parts[1])
  }

  predicate Recovers(prefix: string, x: int) {
    DocNumber(KeyOf(prefix, x)) == Some(x)
  }

  /** The prefix has one underscore, with nothing behind it but what `int` ignores before a number. */
  predicate Clear(prefix: string) {
    var parts := Strings.Split(prefix, '_');
    |parts| == 2 && Strings.Harmless(parts[1])
  }

  /** The prefix has one underscore, with nothing behind it but white space. */
  predicate Bare(prefix: string) {
    var parts := Strings.Split(prefix, '_');
    |parts| == 2 && Strings.LStrip(parts[1]) == []
  }

  /** `q` is `p` with `b` appended to its last part. */
  ghost predicate Extended(p: seq<string>, q: seq<string>, b: string) {
    && |p| == |q| > 0 && q[|p| - 1] == p[|p| - 1] + b
    && forall i :: 0 <= i < |p| - 1 ==> q[i] == p[i]
  }

  lemma ExtendedHead(x: char, p: seq<string>, q: seq<string>, b: string)
    requires Extended(p, q, b)
    ensures Extended([[x] + p[0]] + p[1..], [[x] + q[0]] + q[1..], b)
  {
    if |p| == 1 {
      assert [x] + (p[0] + b) == [x] + p[0] + b;
    }
  }

  lemma {:induction false} SplitAppend(a: string, b: string, c: char)
    requires c !in b
    ensures Extended(Strings.Split(a, c), Strings.Split(a + b, c), b)
    decreases |a|
  {
    if a == [] {
      assert a + b == b;
      Strings.SplitNone(b, c);
    } else {
      SplitAppend(a[1..], b, c);
      assert (a + b)[1..] == a[1..] + b;
      ExtendedHead(a[0], Strings.Split(a[1..], c), Strings.Split(a[1..] + b, c), b);
    }
  }

  /** What is read back out of a key. */
  lemma KeyParts(prefix: string, x: int)
    ensures var p, key := Strings.Split(prefix, '_'), KeyOf(prefix, x);
            && (|p| == 1 ==> DocNumber(key) == None)
            && (|p| == 2 ==> DocNumber(key) == Strings.ParseInt(p[1] + Text(x)))
            && (|p| > 2 ==> DocNumber(key) == Strings.ParseInt(p[1]))
  {
    SplitAppend(prefix, Text(x), '_');
  }

  lemma TextNonneg(x: nat)
    ensures Text(x) == Strings.Str(x)
  {
  }

  /** Every document number that is not negative is recovered if and only if the prefix is clear. */
  lemma RecoversIff(prefix: string)
    ensures (forall x: nat :: Recovers(prefix, x)) <==> Clear(prefix)
  {
    var p := Strings.Split(prefix, '_');
    if Clear(prefix) {
      forall x: nat ensures Recovers(prefix, x) {
        KeyParts(prefix, x);
        TextNonneg(x);
        Strings.HarmlessParse(p[1], x);
      }
    }
    if forall x: nat :: Recovers(prefix, x) {
      assert Recovers(prefix, 0) && Recovers(prefix, 1);
      KeyParts(prefix, 0);
      KeyParts(prefix, 1);
      if |p| == 2 {
        TextNonneg(0);
        TextNonneg(1);
        Strings.ParseHarmless(p[1]);
      }
    }
  }

  /** Every document number, the negative ones too, is recovered if and only if the prefix is bare. */
  lemma RecoversAllIff(prefix: string)
    ensures (forall x :: Recovers(prefix, x)) <==> Bare(prefix)
  {
    var p := Strings.Split(prefix, '_');
    if Bare(prefix) {
      forall x ensures Recovers(prefix, x) {
        KeyParts(prefix, x);
        if x >= 0 {
          TextNonneg(x);
          Strings.HarmlessParse(p[1], x);
        } else {
          Strings.NegativeParse(p[1], Strings.Str(-x), x);
        }
      }
    }
    if forall x :: Recovers(prefix, x) {
      assert forall x: nat :: Recovers(prefix, x);
      RecoversIff(prefix);
      assert Recovers(prefix, -1);
      KeyParts(prefix, -1);
      Strings.NegativeParse(p[1], Strings.Str(1), -1);
    }
  }

  lemma TextInjective(x: int, y: int)
    requires Text(x) == Text(y)
    ensures x == y
  {
    assert forall z: nat :: Strings.IsDigit(Strings.Str(z)[0]);
    if x < 0 && y < 0 {
      assert Text(x)[1..] == Strings.Str(-x) && Text(y)[1..] == Strings.Str(-y);
      Strings.StrInjective(-x, -y);
    } else if x >= 0 && y >= 0 {
      Strings.StrInjective(x, y);
    }
  }

  lemma KeyInjective(prefix: string, x: int, y: int)
    requires KeyOf(prefix, x) == KeyOf(prefix, y)
    ensures x == y
  {
    var n := |prefix|;
    assert KeyOf(prefix, x)[n..] == Text(x) && KeyOf(prefix, y)[n..] == Text(y);
    TextInjective(x, y);
  }

  // ---------- Documents ----------

  /** How documents are named, and how their numbers are read back. */
  datatype Naming = Naming(name: int -> Key, read: Key -> Option<int>)

  function Named(prefix: string): Naming {
    Naming(x => KeyOf(prefix, x), k => DocNumber(k))
  }

  /** The items of a batch: documents `lo` up to but not including `hi`. */
  function Docs(naming: Naming, lo: int, hi: int): seq<Doc> {
    seq(if lo < hi then hi - lo else 0, i requires 0 <= i => (naming.name(lo + i), lo + i))
  }

  function KeyOnly(d: Doc): Key {
    d.0
  }

  function KeysOf(docs: seq<Doc>): seq<Key> {
    Lists.Map(KeyOnly, docs)
  }

  predicate Readable(naming: Naming, keys: seq<Key>) {
    forall i :: 0 <= i < |keys| ==> naming.read(keys[i]).Some?
  }

  /** The items of a retry. */
  function RetryDocs(naming: Naming, keys: seq<Key>): seq<Doc>
    requires Readable(naming, keys)
  {
    seq(|keys|, i requires 0 <= i < |keys| => (keys[i], naming.read(keys[i]).value))
  }

  // ---------- The server ----------

  datatype Reply = Done | BadArgument | Partly(ok: seq<Doc>, failed: seq<Doc>)

  /** Any server: its answer to the n-th bulk upsert, which may depend on anything. */
  type Server = (nat, seq<Doc>) -> Reply

  /** A partial failure splits the items into those stored and those failed, in any order. */
  ghost predicate Splits(server: Server) {
    forall n, items :: server(n, items).Partly? ==>
      multiset(server(n, items).ok) + multiset(server(n, items).failed) == multiset(items)
  }

  /** Any interleaving of the threads' appends. */
  ghost predicate Shuffles(shuffle: seq<Key> -> seq<Key>) {
    forall s :: multiset(shuffle(s)) == multiset(s)
  }

  // ---------- A pass ----------

  /** `log` is what the server has stored, in order; `calls` the number of bulk upserts made. */
  datatype State = State(log: seq<Doc>, retry: seq<Key>, completed: nat, calls: nat)

  datatype Outcome = Finished(state: State) | Raised(state: State) | Pending(state: State)

  /** One `upsert_items`, which repeats itself on an ArgumentError; None past the given number of calls. */
  function Upsert(server: Server, limit: nat, items: seq<Doc>, s: State): (r: Option<State>)
    ensures r.Some? ==> s.calls < r.value.calls <= limit
    decreases limit - s.calls
  {
    if s.calls >= limit then None
    else
      var s' := s.(calls := s.calls + 1);
      match server(s.calls, items)
      case BadArgument => Upsert(server, limit, items, s')
      case Done => Some(s'.(log := s.log + items, completed := s.completed + |items|))
      case Partly(ok, failed) =>
        Some(s'.(log := s.log + ok, completed := s.completed + |ok|, retry := s.retry + KeysOf(failed)))
  }

  function FirstPass(server: Server, limit: nat, naming: Naming, batches: seq<LoadSplit.Batch>, s: State): Option<State>
    decreases |batches|
  {
    if batches == [] then Some(s)
    else
      var s' := Upsert(server, limit, Docs(naming, batches[0].start, batches[0].end), s);
      if s'.None? then None else FirstPass(server, limit, naming, batches[1..], s'.value)
  }

  function RetryLoop(server: Server, limit: nat, naming: Naming, s: State): Outcome
    decreases limit - s.calls
  {
    if s.retry == [] then Finished(s)
    else if !Readable(naming, s.retry) then Raised(s)
    else
      var s' := Upsert(server, limit, RetryDocs(naming, s.retry), s.(retry := []));
      if s'.None? then Pending(s) else RetryLoop(server, limit, naming, s'.value)
  }

  function Begin(): State {
    State([], [], 0, 0)
  }

  /** `single_upsert_pass`, looked at for the first `limit` bulk upserts. */
  function Pass(server: Server, limit: nat, shuffle: seq<Key> -> seq<Key>, naming: Naming,
                batches: seq<LoadSplit.Batch>): Option<Outcome>
  {
    var s := FirstPass(server, limit, naming, batches, Begin());
    if s.None? then None else Some(RetryLoop(server, limit, naming, s.value.(retry := shuffle(s.value.retry))))
  }

  // ---------- Conservation, whatever the naming ----------

  /** Every key of `all` is either stored or waiting to be retried, and stored keys are counted. */
  ghost predicate Conserves(s: State, all: multiset<Key>) {
    s.completed == |s.log| && multiset(KeysOf(s.log)) + multiset(s.retry) == all
  }

  lemma KeysConcat(a: seq<Doc>, b: seq<Doc>)
    ensures KeysOf(a + b) == KeysOf(a) + KeysOf(b)
  {
  }

  /** What one bulk upsert moves. */
  lemma {:induction false} UpsertMoves(server: Server, limit: nat, items: seq<Doc>, s: State) returns (failed: seq<Doc>)
    requires Splits(server) && Upsert(server, limit, items, s).Some?
    ensures var s' := Upsert(server, limit, items, s).value;
            && s'.completed - |s'.log| == s.completed - |s.log|
            && multiset(s'.log) + multiset(failed) == multiset(s.log) + multiset(items)
            && s'.retry == s.retry + KeysOf(failed)
    ensures multiset(failed) <= multiset(items)
    decreases limit - s.calls
  {
    var reply := server(s.calls, items);
    if reply.BadArgument? {
      failed := UpsertMoves(server, limit, items, s.(calls := s.calls + 1));
    } else {
      failed := if reply.Partly? then reply.failed else [];
    }
  }

  lemma Regroup<T>(a: multiset<T>, f: multiset<T>, l: multiset<T>, i: multiset<T>, r: multiset<T>, all: multiset<T>)
    requires a + f == l + i && l + r == all
    ensures a + (r + f) == all + i
  {
    assert a + (r + f) == (a + f) + r;
    assert (l + i) + r == (l + r) + i;
  }

  lemma UpsertConserves(server: Server, limit: nat, items: seq<Doc>, s: State, all: multiset<Key>)
    requires Splits(server) && Conserves(s, all) && Upsert(server, limit, items, s).Some?
    ensures Conserves(Upsert(server, limit, items, s).value, all + multiset(KeysOf(items)))
  {
    var s' := Upsert(server, limit, items, s).value;
    var failed := UpsertMoves(server, limit, items, s);
    Lists.MapPermute(KeyOnly, s'.log + failed, s.log + items);
    KeysConcat(s'.log, failed);
    KeysConcat(s.log, items);
    Regroup(multiset(KeysOf(s'.log)), multiset(KeysOf(failed)), multiset(KeysOf(s.log)), multiset(KeysOf(items)),
            multiset(s.retry), all);
  }

  /** The documents of a list of batches. */
  function DocsOf(naming: Naming, batches: seq<LoadSplit.Batch>): seq<Doc> {
    if batches == [] then [] else Docs(naming, batches[0].start, batches[0].end) + DocsOf(naming, batches[1..])
  }

  lemma {:induction false} FirstPassConserves(server: Server, limit: nat, naming: Naming,
                                              batches: seq<LoadSplit.Batch>, s: State, all: multiset<Key>)
    requires Splits(server) && Conserves(s, all) && FirstPass(server, limit, naming, batches, s).Some?
    ensures Conserves(FirstPass(server, limit, naming, batches, s).value,
                      all + multiset(KeysOf(DocsOf(naming, batches))))
    decreases |batches|
  {
    if batches != [] {
      var docs := Docs(naming, batches[0].start, batches[0].end);
      UpsertConserves(server, limit, docs, s, all);
      FirstPassConserves(server, limit, naming, batches[1..], Upsert(server, limit, docs, s).value,
                         all + multiset(KeysOf(docs)));
      KeysConcat(docs, DocsOf(naming, batches[1..]));
    }
  }

  /** At every loop head, and when the loop ends or raises. */
  lemma {:induction false} RetryConserves(server: Server, limit: nat, naming: Naming, s: State, all: multiset<Key>)
    requires Splits(server) && Conserves(s, all)
    ensures Conserves(RetryLoop(server, limit, naming, s).state, all)
    decreases limit - s.calls
  {
    if s.retry != [] && Readable(naming, s.retry) {
      var items, s0 := RetryDocs(naming, s.retry), s.(retry := []);
      var s' := Upsert(server, limit, items, s0);
      if s'.Some? {
        assert KeysOf(items) == s.retry;
        UpsertConserves(server, limit, items, s0, multiset(KeysOf(s.log)));
        RetryConserves(server, limit, naming, s'.value, all);
      }
    }
  }

  lemma {:induction false} DocsOfBatches(naming: Naming, op: LoadSplit.Operation, lo: int, hi: int, size: int)
    requires size > 0
    ensures DocsOf(naming, LoadSplit.Batches(op, lo, hi, size)) == Docs(naming, lo, hi)
    decreases LoadSplit.Distance(lo, hi, size)
  {
    if lo < hi {
      DocsOfBatches(naming, op, lo + size, hi, size);
    }
  }

  // ---------- Calls made, and the end of the loop ----------

  /** The bulk upserts from the n-th up to the m-th are all refused with an ArgumentError. */
  ghost predicate AllBad(server: Server, items: seq<Doc>, n: nat, m: nat) {
    forall k :: n <= k < m ==> server(k, items).BadArgument?
  }

  /** One upsert makes calls until one is not refused, and notes what that one stored and failed. */
  lemma {:induction false} UpsertIs(server: Server, limit: nat, items: seq<Doc>, s: State, n: nat)
    requires s.calls <= n < limit && AllBad(server, items, s.calls, n) && !server(n, items).BadArgument?
    ensures var reply := server(n, items);
            var ok, failed := if reply.Done? then items else reply.ok, if reply.Done? then [] else reply.failed;
            Upsert(server, limit, items, s) ==
            Some(State(s.log + ok, s.retry + KeysOf(failed), s.completed + |ok|, n + 1))
    decreases n - s.calls
  {
    if s.calls < n {
      assert server(s.calls, items).BadArgument?;
      UpsertIs(server, limit, items, s.(calls := s.calls + 1), n);
    }
    assert s.retry + [] == s.retry;
  }

  /** It is still going after the given number of calls if and only if all of them are refused. */
  lemma {:induction false} UpsertStuckIff(server: Server, limit: nat, items: seq<Doc>, s: State)
    ensures Upsert(server, limit, items, s).None? <==> AllBad(server, items, s.calls, limit)
    decreases limit - s.calls
  {
    if s.calls < limit {
      UpsertStuckIff(server, limit, items, s.(calls := s.calls + 1));
    }
  }

  /** How the retry loop stands: it is over exactly when nothing is left; it has raised exactly when a key could not be
      read back; and it is pending only with the whole number of calls used up. */
  lemma {:induction false} RetryStands(server: Server, limit: nat, naming: Naming, s: State)
    ensures var r := RetryLoop(server, limit, naming, s);
            var s' := r.state;
            && s.calls <= s'.calls && (s'.calls <= limit || s'.calls == s.calls)
            && (r.Finished? <==> s'.retry == [])
            && (r.Raised? <==> s'.retry != [] && !Readable(naming, s'.retry))
            && (r.Pending? ==> Readable(naming, s'.retry)
                               && AllBad(server, RetryDocs(naming, s'.retry), s'.calls, limit))
    decreases limit - s.calls
  {
    if s.retry != [] && Readable(naming, s.retry) {
      var items := RetryDocs(naming, s.retry);
      UpsertStuckIff(server, limit, items, s.(retry := []));
      var s' := Upsert(server, limit, items, s.(retry := []));
      if s'.Some? {
        RetryStands(server, limit, naming, s'.value);
      }
    }
  }

  /** From the n-th call on the server stores everything. */
  ghost predicate StoresFrom(server: Server, n: nat) {
    forall k, items :: k >= n ==> server(k, items).Done?
  }

  lemma {:induction false} UpsertEnds(server: Server, limit: nat, items: seq<Doc>, s: State, n: nat)
    requires StoresFrom(server, n) && s.calls < limit && n < limit
    ensures var r := Upsert(server, limit, items, s);
            && r.Some? && (r.value.calls <= n || r.value.calls == s.calls + 1 || r.value.calls == n + 1)
            && (r.value.calls > n ==> r.value.retry == s.retry)
    decreases limit - s.calls
  {
    if server(s.calls, items).BadArgument? {
      assert s.calls < n;
      UpsertEnds(server, limit, items, s.(calls := s.calls + 1), n);
    }
  }

  lemma {:induction false} FirstPassEnds(server: Server, limit: nat, naming: Naming, batches: seq<LoadSplit.Batch>,
                                         s: State, n: nat, c: nat)
    requires StoresFrom(server, n) && s.calls <= c && n <= c && c + |batches| <= limit
    ensures var r := FirstPass(server, limit, naming, batches, s);
            r.Some? && r.value.calls <= c + |batches|
    decreases |batches|
  {
    if batches != [] {
      var docs := Docs(naming, batches[0].start, batches[0].end);
      UpsertEnds(server, limit, docs, s, n);
      FirstPassEnds(server, limit, naming, batches[1..], Upsert(server, limit, docs, s).value, n, c + 1);
    }
  }

  /** A server that stores everything gets one call for each batch, with its documents, in order. */
  lemma {:induction false} FirstPassPlain(server: Server, limit: nat, naming: Naming, batches: seq<LoadSplit.Batch>,
                                          s: State)
    requires StoresFrom(server, s.calls) && s.calls + |batches| <= limit
    ensures var docs := DocsOf(naming, batches);
            FirstPass(server, limit, naming, batches, s) ==
            Some(State(s.log + docs, s.retry, s.completed + |docs|, s.calls + |batches|))
    decreases |batches|
  {
    if batches == [] {
      assert s.log + [] == s.log;
    } else {
      var docs, rest := Docs(naming, batches[0].start, batches[0].end), DocsOf(naming, batches[1..]);
      UpsertIs(server, limit, docs, s, s.calls);
      assert s.retry + [] == s.retry && s.log + docs + rest == s.log + (docs + rest);
      FirstPassPlain(server, limit, naming, batches[1..], Upsert(server, limit, docs, s).value);
    }
  }

  lemma {:induction false} RetryEnds(server: Server, limit: nat, naming: Naming, s: State, n: nat)
    requires StoresFrom(server, n) && s.calls < limit && n < limit
    ensures !RetryLoop(server, limit, naming, s).Pending?
    decreases limit - s.calls
  {
    if s.retry != [] && Readable(naming, s.retry) {
      var items := RetryDocs(naming, s.retry);
      UpsertEnds(server, limit, items, s.(retry := []), n);
      var s' := Upsert(server, limit, items, s.(retry := [])).value;
      if s'.calls <= n {
        RetryEnds(server, limit, naming, s', n);
      }
    }
  }

  // ---------- The numbers, when they can be read back ----------

  /** Each number from `lo` up to `hi` can be read back from its name. */
  ghost predicate ReadsBack(naming: Naming, lo: int, hi: int) {
    forall x :: lo <= x < hi ==> naming.read(naming.name(x)) == Some(x)
  }

  ghost predicate Faithful(naming: Naming, docs: multiset<Doc>) {
    forall d :: d in docs ==> naming.read(d.0) == Some(d.1)
  }

  /** Every document of `all` is either stored under its own number or waiting to be. */
  ghost predicate Right(naming: Naming, s: State, all: multiset<Doc>) {
    && s.completed == |s.log|
    && Readable(naming, s.retry)
    && multiset(s.log) + multiset(RetryDocs(naming, s.retry)) == all
  }

  lemma RetryFaithful(naming: Naming, keys: seq<Key>, docs: seq<Doc>)
    requires Readable(naming, keys) && Faithful(naming, multiset(docs))
    ensures Readable(naming, keys + KeysOf(docs))
    ensures RetryDocs(naming, keys + KeysOf(docs)) == RetryDocs(naming, keys) + docs
  {
    forall i | 0 <= i < |docs| ensures naming.read(docs[i].0) == Some(docs[i].1) {
      assert docs[i] in multiset(docs);
    }
  }

  lemma UpsertRight(server: Server, limit: nat, naming: Naming, items: seq<Doc>, s: State, all: multiset<Doc>)
    requires Splits(server) && Right(naming, s, all) && Faithful(naming, multiset(items))
    requires Upsert(server, limit, items, s).Some?
    ensures Right(naming, Upsert(server, limit, items, s).value, all + multiset(items))
  {
    var s' := Upsert(server, limit, items, s).value;
    var failed := UpsertMoves(server, limit, items, s);
    RetryFaithful(naming, s.retry, failed);
    Regroup(multiset(s'.log), multiset(failed), multiset(s.log), multiset(items),
            multiset(RetryDocs(naming, s.retry)), all);
  }

  lemma {:induction false} FirstPassRight(server: Server, limit: nat, naming: Naming,
                                          batches: seq<LoadSplit.Batch>, s: State, all: multiset<Doc>)
    requires Splits(server) && Right(naming, s, all) && Faithful(naming, multiset(DocsOf(naming, batches)))
    requires FirstPass(server, limit, naming, batches, s).Some?
    ensures Right(naming, FirstPass(server, limit, naming, batches, s).value, all + multiset(DocsOf(naming, batches)))
    decreases |batches|
  {
    if batches != [] {
      var docs := Docs(naming, batches[0].start, batches[0].end);
      UpsertRight(server, limit, naming, docs, s, all);
      FirstPassRight(server, limit, naming, batches[1..], Upsert(server, limit, docs, s).value, all + multiset(docs));
    }
  }

  lemma {:induction false} RetryRight(server: Server, limit: nat, naming: Naming, s: State, all: multiset<Doc>)
    requires Splits(server) && Right(naming, s, all)
    ensures var r := RetryLoop(server, limit, naming, s);
            Right(naming, r.state, all) && !r.Raised?
    decreases limit - s.calls
  {
    if s.retry != [] {
      var items, s0 := RetryDocs(naming, s.retry), s.(retry := []);
      var s' := Upsert(server, limit, items, s0);
      if s'.Some? {
        UpsertRight(server, limit, naming, items, s0, multiset(s.log));
        RetryRight(server, limit, naming, s'.value, all);
      }
    }
  }

  /** The order in which failed keys were noted does not matter. */
  lemma ShuffleRight(naming: Naming, s: State, retry: seq<Key>, all: multiset<Doc>)
    requires Right(naming, s, all) && multiset(retry) == multiset(s.retry)
    ensures Right(naming, s.(retry := retry), all)
  {
    forall i | 0 <= i < |retry| ensures naming.read(retry[i]).Some? {
      assert retry[i] in multiset(s.retry);
    }
    var f := (k: Key) => (k, if naming.read(k).Some? then naming.read(k).value else 0);
    Lists.MapPermute(f, retry, s.retry);
    assert Lists.Map(f, retry) == RetryDocs(naming, retry);
    assert Lists.Map(f, s.retry) == RetryDocs(naming, s.retry);
  }

  /** Over every server and every interleaving, and for every naming: at each head of the retry loop,
      and however it ends, the keys stored and those to retry are together the keys of the documents
      asked for, and `num_completed` counts the stored ones. */
  lemma PassConserves(server: Server, limit: nat, shuffle: seq<Key> -> seq<Key>, naming: Naming,
                      lo: int, n: nat, size: int)
    requires Splits(server) && Shuffles(shuffle) && size > 0
    ensures var r := Pass(server, limit, shuffle, naming, LoadSplit.Batches(LoadSplit.Upsert, lo, lo + n, size));
            r.Some? ==> && Conserves(r.value.state, multiset(KeysOf(Docs(naming, lo, lo + n))))
                        && r.value.state.completed + |r.value.state.retry| == n
  {
    var batches, docs := LoadSplit.Batches(LoadSplit.Upsert, lo, lo + n, size), Docs(naming, lo, lo + n);
    var r := Pass(server, limit, shuffle, naming, batches);
    if r.Some? {
      FirstPassConserves(server, limit, naming, batches, Begin(), multiset{});
      DocsOfBatches(naming, LoadSplit.Upsert, lo, lo + n, size);
      var s := FirstPass(server, limit, naming, batches, Begin()).value;
      RetryConserves(server, limit, naming, s.(retry := shuffle(s.retry)), multiset(KeysOf(docs)));
      ConservesCount(r.value.state, docs);
    }
  }

  lemma ConservesCount(s: State, docs: seq<Doc>)
    requires Conserves(s, multiset(KeysOf(docs)))
    ensures s.completed + |s.retry| == |docs|
  {
    assert |multiset(KeysOf(s.log)) + multiset(s.retry)| == |s.log| + |s.retry|;
  }

  /** No retry has raised, and if the loop has ended then every document is stored exactly once. */
  ghost predicate StoresAll(r: Outcome, docs: seq<Doc>) {
    && !r.Raised?
    && (r.Finished? ==> multiset(r.state.log) == multiset(docs) && r.state.completed == |docs|)
  }

  /** When every number is recovered from its key, no retry raises, and once the loop ends every key has
      been stored exactly once, under its own document number. */
  lemma PassStoresAll(server: Server, limit: nat, shuffle: seq<Key> -> seq<Key>, naming: Naming,
                      lo: int, n: nat, size: int)
    requires Splits(server) && Shuffles(shuffle) && size > 0
    requires ReadsBack(naming, lo, lo + n)
    ensures var r := Pass(server, limit, shuffle, naming, LoadSplit.Batches(LoadSplit.Upsert, lo, lo + n, size));
            r.Some? ==> StoresAll(r.value, Docs(naming, lo, lo + n))
  {
    var batches, docs := LoadSplit.Batches(LoadSplit.Upsert, lo, lo + n, size), Docs(naming, lo, lo + n);
    assert DocsOf(naming, batches) == docs by { DocsOfBatches(naming, LoadSplit.Upsert, lo, lo + n, size); }
    assert Faithful(naming, multiset(docs)) by { DocsFaithful(naming, lo, lo + n); }
    PassRight(server, limit, shuffle, naming, batches, docs);
  }

  /** And the loop does end once the server stores everything: whatever it did in its first `m` calls, a pass then takes
      at most one call for each batch and one more. */
  lemma PassEnds(server: Server, m: nat, limit: nat, shuffle: seq<Key> -> seq<Key>, naming: Naming,
                 lo: int, n: nat, size: int)
    requires Splits(server) && Shuffles(shuffle) && size > 0 && ReadsBack(naming, lo, lo + n)
    requires StoresFrom(server, m)
    requires limit > m + |LoadSplit.Batches(LoadSplit.Upsert, lo, lo + n, size)|
    ensures var r := Pass(server, limit, shuffle, naming, LoadSplit.Batches(LoadSplit.Upsert, lo, lo + n, size));
            && r.Some? && r.value.Finished?
            && multiset(r.value.state.log) == multiset(Docs(naming, lo, lo + n)) && r.value.state.completed == n
  {
    var batches := LoadSplit.Batches(LoadSplit.Upsert, lo, lo + n, size);
    FirstPassEnds(server, limit, naming, batches, Begin(), m, m);
    var s := FirstPass(server, limit, naming, batches, Begin()).value;
    RetryEnds(server, limit, naming, s.(retry := shuffle(s.retry)), m);
    PassStoresAll(server, limit, shuffle, naming, lo, n, size);
  }

  lemma DocsFaithful(naming: Naming, lo: int, hi: int)
    requires ReadsBack(naming, lo, hi)
    ensures Faithful(naming, multiset(Docs(naming, lo, hi)))
  {
    var docs := Docs(naming, lo, hi);
    forall d: Doc | d in multiset(docs) ensures naming.read(d.0) == Some(d.1) {
      var i :| 0 <= i < |docs| && docs[i] == d;
      assert d == (naming.name(lo + i), lo + i);
    }
  }

  lemma PassRight(server: Server, limit: nat, shuffle: seq<Key> -> seq<Key>, naming: Naming,
                  batches: seq<LoadSplit.Batch>, docs: seq<Doc>)
    requires Splits(server) && Shuffles(shuffle)
    requires DocsOf(naming, batches) == docs && Faithful(naming, multiset(docs))
    ensures var r := Pass(server, limit, shuffle, naming, batches);
            r.Some? ==> StoresAll(r.value, docs)
  {
    var f := FirstPass(server, limit, naming, batches, Begin());
    if f.Some? {
      FirstPassRight(server, limit, naming, batches, Begin(), multiset{});
      var s := f.value.(retry := shuffle(f.value.retry));
      ShuffleRight(naming, f.value, s.retry, multiset(docs));
      RetryRight(server, limit, naming, s, multiset(docs));
      var r := RetryLoop(server, limit, naming, s);
      if r.Finished? {
        RetryFinished(server, limit, naming, s);
        FinishedAll(naming, r.state, docs);
      }
    }
  }

  lemma FinishedAll(naming: Naming, s: State, docs: seq<Doc>)
    requires Right(naming, s, multiset(docs)) && s.retry == []
    ensures multiset(s.log) == multiset(docs) && s.completed == |docs|
  {
    assert RetryDocs(naming, s.retry) == [];
    assert |multiset(s.log)| == |multiset(docs)|;
  }

  lemma {:induction false} RetryFinished(server: Server, limit: nat, naming: Naming, s: State)
    ensures var r := RetryLoop(server, limit, naming, s);
            r.Finished? ==> r.state.retry == []
    decreases limit - s.calls
  {
    if s.retry != [] && Readable(naming, s.retry) {
      var s' := Upsert(server, limit, RetryDocs(naming, s.retry), s.(retry := []));
      if s'.Some? {
        RetryFinished(server, limit, naming, s'.value);
      }
    }
  }

  /** With a clear prefix this holds of every range of documents that are not negative. */
  lemma ClearStoresAll(server: Server, limit: nat, shuffle: seq<Key> -> seq<Key>, prefix: string,
                       lo: nat, n: nat, size: int)
    requires Splits(server) && Shuffles(shuffle) && size > 0 && Clear(prefix)
    ensures var r := Pass(server, limit, shuffle, Named(prefix),
                          LoadSplit.Batches(LoadSplit.Upsert, lo, lo + n, size));
            r.Some? ==> StoresAll(r.value, Docs(Named(prefix), lo, lo + n))
  {
    RecoversIff(prefix);
    forall x | lo <= x < lo + n ensures Named(prefix).read(Named(prefix).name(x)) == Some(x) {
      assert Recovers(prefix, x);
    }
    PassStoresAll(server, limit, shuffle, Named(prefix), lo, n, size);
  }

  lemma KeysDistinct(naming: Naming, lo: int, hi: int)
    requires forall x, y :: naming.name(x) == naming.name(y) ==> x == y
    ensures Lists.Distinct(KeysOf(Docs(naming, lo, hi)))
  {
    var docs := Docs(naming, lo, hi);
    var keys := KeysOf(docs);
    forall i, j | 0 <= i < j < |keys| ensures keys[i] != keys[j] {
      assert keys[i] == docs[i].0 == naming.name(lo + i) && keys[j] == docs[j].0 == naming.name(lo + j);
    }
  }

  lemma NamedInjective(prefix: string)
    ensures forall x, y :: Named(prefix).name(x) == Named(prefix).name(y) ==> x == y
  {
    forall x, y | Named(prefix).name(x) == Named(prefix).name(y) ensures x == y {
      KeyInjective(prefix, x, y);
    }
  }

  /** Keys to retry are distinct, so collecting their items in a dictionary loses none. */
  lemma RetryDistinct(prefix: string, s: State, lo: int, hi: int)
    requires Conserves(s, multiset(KeysOf(Docs(Named(prefix), lo, hi))))
    ensures Lists.Distinct(s.retry)
  {
    NamedInjective(prefix);
    KeysDistinct(Named(prefix), lo, hi);
    Lists.DistinctPart(s.retry, KeysOf(Docs(Named(prefix), lo, hi)));
  }

  /** A server that fails everything once and then stores it. */
  function FailOnce(): Server {
    (n, items) => if n == 0 then Partly([], items) else Done
  }

  /** No interleaving at all. */
  function InOrder(keys: seq<Key>): seq<Key> {
    keys
  }

  lemma FailOnceSplits()
    ensures Splits(FailOnce())
  {
    forall n, items | FailOnce()(n, items).Partly?
      ensures multiset(FailOnce()(n, items).ok) + multiset(FailOnce()(n, items).failed) == multiset(items) {
      assert FailOnce()(n, items) == Partly([], items);
    }
  }

  lemma FailOnceUpserts(items: seq<Doc>)
    ensures Upsert(FailOnce(), 2, items, Begin()) == Some(State([], KeysOf(items), 0, 1))
    ensures Upsert(FailOnce(), 2, items, State([], [], 0, 1)) == Some(State(items, [], |items|, 2))
  {
    UpsertOnce(FailOnce(), 2, items, Begin());
    UpsertOnce(FailOnce(), 2, items, State([], [], 0, 1));
    var none: seq<Doc> := [];
    assert none + none == none && none + items == items && [] + KeysOf(items) == KeysOf(items);
  }

  lemma UpsertOnce(server: Server, limit: nat, items: seq<Doc>, s: State)
    requires s.calls < limit
    ensures var reply, r := server(s.calls, items), Upsert(server, limit, items, s);
            && (reply.Done? ==> r == Some(State(s.log + items, s.retry, s.completed + |items|, s.calls + 1)))
            && (reply.Partly? ==> r == Some(State(s.log + reply.ok, s.retry + KeysOf(reply.failed),
                                                  s.completed + |reply.ok|, s.calls + 1)))
  {
  }

  /** A number that is not recovered does go wrong: when the server fails that one document once, the
      retry raises or stores the key under another number. */
  lemma UnrecoveredGoesWrong(naming: Naming, x: int)
    requires naming.read(naming.name(x)) != Some(x)
    ensures Splits(FailOnce())
    ensures var r := Pass(FailOnce(), 2, InOrder, naming, LoadSplit.Batches(LoadSplit.Upsert, x, x + 1, 1));
            r.Some? && (r.value.Raised? || exists y :: y != x && r.value.state.log == [(naming.name(x), y)])
  {
    FailOnceSplits();
    var server, k := FailOnce(), naming.name(x);
    var batch := LoadSplit.Batch(LoadSplit.Upsert, x, x + 1);
    assert LoadSplit.Batches(LoadSplit.Upsert, x, x + 1, 1) == [batch];
    var docs, s := Docs(naming, x, x + 1), State([], [k], 0, 1);
    assert docs == [(k, x)] && KeysOf(docs) == [k];
    FailOnceUpserts(docs);
    assert FirstPass(server, 2, naming, [batch], Begin()) == Some(s);
    assert Pass(server, 2, InOrder, naming, [batch]) == Some(RetryLoop(server, 2, naming, s));
    if naming.read(k).Some? {
      var y := naming.read(k).value;
      var again := [(k, y)];
      assert RetryDocs(naming, [k]) == again;
      FailOnceUpserts(again);
      assert RetryLoop(server, 2, naming, s) == Finished(State(again, [], 1, 2));
      assert y != x && Finished(State(again, [], 1, 2)).state.log == [(naming.name(x), y)];
    } else {
      assert s.retry[0] == k;
      assert RetryLoop(server, 2, naming, s) == Raised(s);
    }
  }

  // ---------- The generator ----------

  /** `DocumentGenerator` during a pass; `log` and `calls` belong to the server it talks to. */
  class Loader {
    const server: Server
    const naming: Naming
    const args: LoadSplit.Args
    const batchSize: int
    var batches: seq<LoadSplit.Batch>
    var retryBatches: seq<Key>
    var numCompleted: nat
    var replicateTo: int
    var log: seq<Doc>
    var calls: nat

    constructor (server: Server, prefix: string, replicateTo: int, args: LoadSplit.Args, batchSize: int)
      ensures this.server == server && naming == Named(prefix) && this.args == args && this.batchSize == batchSize
      ensures Now() == Begin() && this.replicateTo == replicateTo
    {
      this.server, naming, this.replicateTo := server, Named(prefix), replicateTo;
      this.args, this.batchSize, batches := args, batchSize, [];
      retryBatches, numCompleted, log, calls := [], 0, [], 0;
    }

    ghost function Now(): State
      reads this
    {
      State(log, retryBatches, numCompleted, calls)
    }

    method GetUpsertItems(start: int, end: int) returns (items: seq<Doc>)
      ensures items == Docs(naming, start, end)
    {
      items := [];
      var x := start;
      while x < end
        invariant start <= x && (x <= end || x == start)
        invariant items == Docs(naming, start, x)
      {
        items := items + [(naming.name(x), x)];
        x := x + 1;
      }
    }

    method GetRetryUpsertItems() returns (items: Option<seq<Doc>>)
      ensures items == if Readable(naming, retryBatches) then Some(RetryDocs(naming, retryBatches)) else None
    {
      var docs := [];
      for i := 0 to |retryBatches|
        invariant |docs| == i && forall j :: 0 <= j < i ==>
                    && naming.read(retryBatches[j]).Some?
                    && docs[j] == (retryBatches[j], naming.read(retryBatches[j]).value)
      {
        var item := retryBatches[i];
        var x := naming.read(item);
        if x.None? {
          assert !Readable(naming, retryBatches);
          return None;
        }
        docs := docs + [(item, x.value)];
      }
      assert docs == RetryDocs(naming, retryBatches);
      items := Some(docs);
    }

    /** The number of items stored; None past the given number of calls. */
    method UpsertItems(items: seq<Doc>, limit: nat) returns (done: Option<nat>)
      modifies this`retryBatches, this`replicateTo, this`log, this`calls
      ensures replicateTo ==
              if calls > old(calls) && server(old(calls), items).BadArgument? then 0 else old(replicateTo)
      ensures done.None? ==> calls >= limit
      ensures var r := Upsert(server, limit, items, old(Now()));
              if r.None? then done.None? && log == old(log) && retryBatches == old(retryBatches)
              else done.Some? && Now().(completed := numCompleted + done.value) == r.value
      decreases limit - calls
    {
      if calls >= limit {
        return None;
      }
      var reply := server(calls, items);
      calls := calls + 1;
      match reply
      case Done =>
        log := log + items;
        done := Some(|items|);
      case BadArgument =>
        replicateTo := 0;
        done := UpsertItems(items, limit);
      case Partly(ok, failed) =>
        log := log + ok;
        for i := 0 to |failed|
          invariant retryBatches == old(retryBatches) + KeysOf(failed[..i])
          invariant log == old(log) + ok && calls == old(calls) + 1 && replicateTo == old(replicateTo)
        {
          retryBatches := retryBatches + [failed[i].0];
          assert KeysOf(failed[..i + 1]) == KeysOf(failed[..i]) + [failed[i].0];
        }
        assert failed[..|failed|] == failed;
        done := Some(|ok|);
    }

    /** The retry loop; None while it is still going after the given number of calls. */
    method Retry(limit: nat) returns (raised: Option<bool>)
      modifies this`retryBatches, this`replicateTo, this`log, this`calls, this`numCompleted
      ensures var r := RetryLoop(server, limit, naming, old(Now()));
              match r
              case Finished(s) => raised == Some(false) && Now() == s
              case Raised(s) => raised == Some(true) && Now() == s
              case Pending(s) => raised == None && log == s.log && numCompleted == s.completed && calls >= limit
    {
      while retryBatches != []
        invariant RetryLoop(server, limit, naming, Now()) == RetryLoop(server, limit, naming, old(Now()))
        decreases limit - calls
      {
        var items := GetRetryUpsertItems();
        if items.None? {
          return Some(true);
        }
        retryBatches := [];
        var completed := UpsertItems(items.value, limit);
        if completed.None? {
          return None;
        }
        numCompleted := numCompleted + completed.value;
      }
      raised := Some(false);
    }

    /** What a thread does with its batch. */
    method UpsertThread(batch: LoadSplit.Batch, limit: nat) returns (done: Option<nat>)
      modifies this`retryBatches, this`replicateTo, this`log, this`calls
      ensures var r := Upsert(server, limit, Docs(naming, batch.start, batch.end), old(Now()));
              if r.None? then done.None? && calls >= limit
              else done.Some? && Now().(completed := numCompleted + done.value) == r.value
    {
      var items := GetUpsertItems(batch.start, batch.end);
      done := UpsertItems(items, limit);
    }

    /** The thread pool's round over the batches: the number stored by each. */
    method FirstRound(limit: nat) returns (results: Option<seq<nat>>)
      requires Now() == Begin()
      modifies this`retryBatches, this`replicateTo, this`log, this`calls
      ensures var r := FirstPass(server, limit, naming, batches, Begin());
              if r.None? then results.None? && calls >= limit
              else results.Some? && Now().(completed := Total(results.value)) == r.value
    {
      hide Upsert, Docs;
      var done: seq<nat> := [];
      ghost var s := Begin();
      ghost var r := FirstPass(server, limit, naming, batches, s);
      assert batches[0..] == batches;
      for i := 0 to |batches|
        invariant Now().(completed := Total(done)) == s
        invariant FirstPass(server, limit, naming, batches[i..], s) == r
      {
        UpsertCount(server, limit, Docs(naming, batches[i].start, batches[i].end), Now(), Total(done));
        FirstPassNext(server, limit, naming, batches, i, s);
        var completed := UpsertThread(batches[i], limit);
        if completed.None? {
          return None;
        }
        TotalSnoc(done, completed.value);
        done := done + [completed.value];
        s := Now().(completed := Total(done));
      }
      results := Some(done);
    }

    method AddResults(results: seq<nat>)
      modifies this`numCompleted
      ensures numCompleted == old(numCompleted) + Total(results)
    {
      for i := 0 to |results|
        invariant numCompleted == old(numCompleted) + Total(results[..i])
      {
        numCompleted := numCompleted + results[i];
        TotalSnoc(results[..i], results[i]);
        assert results[..i + 1] == results[..i] + [results[i]];
      }
      assert results[..|results|] == results;
    }

    method CreateUpsertBatches() returns (ok: bool)
      modifies this`batches
      ensures ok == (batchSize != 0)
      ensures batches == LoadSplit.UpsertBatches(args, batchSize)
    {
      var generator := new LoadSplit.DocumentGenerator(args, batchSize);
      ok := generator.CreateUpsertBatches();
      batches := generator.batches;
      assert [] + batches == batches;
    }

    /** `single_upsert_pass`: the interleaving of the threads' appends is given by `shuffle`. A batch size of zero
        raises at once. */
    method SingleUpsertPass(limit: nat, shuffle: seq<Key> -> seq<Key>) returns (raised: Option<bool>)
      requires Now() == Begin()
      modifies this
      ensures batchSize == 0 ==> raised == Some(true) && Now() == Begin()
      ensures batchSize != 0 ==>
              match Pass(server, limit, shuffle, naming, LoadSplit.UpsertBatches(args, batchSize))
              case None => raised == None && calls >= limit
              case Some(Finished(s)) => raised == Some(false) && Now() == s
              case Some(Raised(s)) => raised == Some(true) && Now() == s
              case Some(Pending(s)) => raised == None && log == s.log && numCompleted == s.completed && calls >= limit
    {
      var ok := CreateUpsertBatches();
      if !ok {
        return Some(true);
      }
      var results := FirstRound(limit);
      if results.None? {
        return None;
      }
      retryBatches := shuffle(retryBatches);
      AddResults(results.value);
      raised := Retry(limit);
    }
  }

  lemma FirstPassNext(server: Server, limit: nat, naming: Naming, batches: seq<LoadSplit.Batch>, i: nat, s: State)
    requires i < |batches|
    ensures var r := Upsert(server, limit, Docs(naming, batches[i].start, batches[i].end), s);
            FirstPass(server, limit, naming, batches[i..], s) ==
            if r.None? then None else FirstPass(server, limit, naming, batches[i + 1..], r.value)
  {
    assert batches[i..][1..] == batches[i + 1..];
  }

  function Total(xs: seq<nat>): nat {
    if xs == [] then 0 else Total(xs[..|xs| - 1]) + xs[|xs| - 1]
  }

  lemma TotalSnoc(xs: seq<nat>, x: nat)
    ensures Total(xs + [x]) == Total(xs) + x
  {
    assert (xs + [x])[..|xs|] == xs;
  }

  /** An upsert adds to the count, whatever it was. */
  lemma {:induction false} UpsertCount(server: Server, limit: nat, items: seq<Doc>, s: State, c: nat)
    ensures var r, r' := Upsert(server, limit, items, s), Upsert(server, limit, items, s.(completed := c));
            if r.None? then r'.None?
            else && r.value.completed >= s.completed
                 && r' == Some(r.value.(completed := c + (r.value.completed - s.completed)))
    decreases limit - s.calls
  {
    if s.calls < limit && server(s.calls, items).BadArgument? {
      UpsertCount(server, limit, items, s.(calls := s.calls + 1), c);
    }
  }
}
