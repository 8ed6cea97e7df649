/**
 The SDK client pool (lib/sdk_client3.py): clients of a bucket are idle or busy, a busy client is
 shared by every thread working on the same collection and counted, and a release reads the client's
 collection before it takes the lock. Threads interleave freely between these steps.
 */
module ClientPool {
  import opened Wrappers
  import opened Lists

  /** A scope and a collection name. */
  type Name = (string, string)

  const DEFAULT: Name := ("_default", "_default")

  /** Keys the bucket's own bookkeeping occupies in the dictionary collections are entered in. */
  const RESERVED: set<string> := {"lock", "idle_clients", "busy_clients"}

  datatype Entry = Entry(client: nat, counter: int)

  /** One bucket: clients are numbered as they are created; `selected` is the scope and collection
      each is currently working on. */
  datatype Bucket = Bucket(
    created: nat, idle: seq<nat>, busy: seq<nat>, table: map<string, Entry>, selected: map<nat, Name>)

  const NEW_BUCKET: Bucket := Bucket(0, [], [], map[], map[])

  function Key(n: Name): string {
    n.0 + n.1
  }

  /** `list.remove`. */
  function Remove(s: seq<nat>, c: nat): seq<nat> {
    if s == [] then [] else if s[0] == c then s[1..] else [s[0]] + Remove(s[1..], c)
  }

  function Create(b: Bucket): Bucket {
    b.(created := b.created + 1, idle := b.idle + [b.created], selected := b.selected[b.created := DEFAULT])
  }

  /** One turn of the loop in `get_client_for_bucket`, with the lock held: Raised when the name runs
      into the bookkeeping, Retry when no client is free. */
  datatype Acquired = Acquired(bucket: Bucket, client: nat) | Retry | Raised

  function Acquire(b: Bucket, n: Name): Acquired {
    var k := Key(n);
    if k in RESERVED then Raised
    else if k in b.table then
      var e := b.table[k];
      Acquired(b.(table := b.table[k := e.(counter := e.counter + 1)]), e.client)
    else if b.idle != [] then
      var c := b.idle[|b.idle| - 1];
      Acquired(
        b.(idle := b.idle[..|b.idle| - 1], selected := b.selected[c := n], busy := b.busy + [c],
           table := b.table[k := Entry(c, 1)]), c)
    else Retry
  }

  /** Failed: an exception, which leaves the bucket as far changed as it was. */
  datatype Released = Released(bucket: Bucket) | Failed(bucket: Bucket)

  /** `release_client` with the lock held, for the collection key read before. The entry is gone before a client
      that is not on the busy list is missed. */
  function Release(b: Bucket, c: nat, k: string): Released {
    if k in RESERVED || k !in b.table then Failed(b)
    else if b.table[k].counter == 1 then
      if c !in b.busy then Failed(b.(table := b.table - {k}))
      else Released(b.(table := b.table - {k}, busy := Remove(b.busy, c), idle := b.idle + [c]))
    else
      var e := b.table[k];
      Released(b.(table := b.table[k := Entry(e.client, e.counter - 1)]))
  }

  // ---------- Interleavings ----------

  /** A thread that got a client for `name`; on its way to releasing it, it has read `key`. */
  datatype Holder = Holding(client: nat, name: Name) | Releasing(client: nat, name: Name, key: string)

  /** The pool of a bucket and the threads using it. An exception inside the critical section leaves the
      lock taken, and every later acquisition blocked. */
  datatype Pool = Pool(bucket: Bucket, holders: map<nat, Holder>, stuck: bool)

  const EMPTY: Pool := Pool(NEW_BUCKET, map[], false)

  datatype Step = NewClient | Get(holder: nat, name: Name) | ReadKey(holder: nat) | GiveBack(holder: nat)

  /** Each holder gets once, then reads its key once, then releases once. */
  predicate Enabled(p: Pool, s: Step) {
    match s
    case NewClient => true
    case Get(h, _) => h !in p.holders && !p.stuck
    case ReadKey(h) => h in p.holders && p.holders[h].Holding? && p.holders[h].client in p.bucket.selected
    case GiveBack(h) => h in p.holders && p.holders[h].Releasing? && !p.stuck
  }

  function Apply(p: Pool, s: Step): Pool
    requires Enabled(p, s)
  {
    match s
    case NewClient => p.(bucket := Create(p.bucket))
    case Get(h, n) =>
      (match Acquire(p.bucket, n)
       case Acquired(b, c) => p.(bucket := b, holders := p.holders[h := Holding(c, n)])
       case Retry => p
       case Raised => p.(stuck := true))
    case ReadKey(h) =>
      var c := p.holders[h].client;
      p.(holders := p.holders[h := Releasing(c, p.holders[h].name, Key(p.bucket.selected[c]))])
    case GiveBack(h) =>
      (match Release(p.bucket, p.holders[h].client, p.holders[h].key)
       case Released(b) => p.(bucket := b, holders := p.holders - {h})
       case Failed(b) => p.(bucket := b, stuck := true))
  }

  predicate Runnable(p: Pool, steps: seq<Step>)
    decreases |steps|
  {
    steps == [] || (Enabled(p, steps[0]) && Runnable(Apply(p, steps[0]), steps[1..]))
  }

  function Run(p: Pool, steps: seq<Step>): Pool
    requires Runnable(p, steps)
    decreases |steps|
  {
    if steps == [] then p else Run(Apply(p, steps[0]), steps[1..])
  }

  /** All names asked for along a run come from `names`. */
  predicate Uses(names: set<Name>, steps: seq<Step>) {
    forall s :: s in steps && s.Get? ==> s.name in names
  }

  /** Joining scope and collection is injective on the names in use and avoids the bookkeeping keys. */
  ghost predicate Distinguishable(names: set<Name>) {
    && (forall a, b :: a in names && b in names && Key(a) == Key(b) ==> a == b)
    && (forall a :: a in names ==> Key(a) !in RESERVED)
  }

  // ---------- The invariant ----------

  function HoldersOf(holders: map<nat, Holder>, c: nat): set<nat> {
    set h | h in holders && holders[h].client == c
  }

  /** Idle and busy together are exactly the created clients, each once. */
  ghost predicate Partitioned(b: Bucket) {
    && Distinct(b.idle) && Distinct(b.busy)
    && (forall c :: c in b.idle ==> c !in b.busy)
    && (forall c: nat :: c in b.idle || c in b.busy <==> c < b.created)
    && (forall c: nat :: c in b.selected <==> c < b.created)
  }

  /** Busy clients and collection entries correspond one to one, through the collection selected. */
  ghost predicate Matched(b: Bucket) {
    && (forall k :: k in b.table ==>
          b.table[k].client in b.busy && b.table[k].client in b.selected && Key(b.selected[b.table[k].client]) == k)
    && (forall c :: c in b.busy ==>
          c in b.selected && Key(b.selected[c]) in b.table && b.table[Key(b.selected[c])].client == c)
  }

  /** Each counter is the number of holders of its client. */
  ghost predicate Counted(p: Pool) {
    forall k :: k in p.bucket.table ==>
      p.bucket.table[k].counter == |HoldersOf(p.holders, p.bucket.table[k].client)| > 0
  }

  /** Every holder's client is selected on what the holder asked for, and a key read is the right one. */
  ghost predicate Selected(p: Pool) {
    forall h :: h in p.holders ==>
      && p.holders[h].client in p.bucket.busy
      && p.holders[h].client in p.bucket.selected
      && p.bucket.selected[p.holders[h].client] == p.holders[h].name
      && (p.holders[h].Releasing? ==> p.holders[h].key == Key(p.holders[h].name))
  }

  ghost predicate Named(names: set<Name>, b: Bucket) {
    forall c :: c in b.busy && c in b.selected ==> b.selected[c] in names
  }

  ghost predicate Inv(names: set<Name>, p: Pool) {
    && !p.stuck && Partitioned(p.bucket) && Matched(p.bucket) && Counted(p) && Selected(p)
    && Named(names, p.bucket)
  }

  // ---------- Preservation, step by step ----------

  lemma {:induction false} RemoveIs(s: seq<nat>, c: nat)
    requires Distinct(s)
    ensures Distinct(Remove(s, c))
    ensures forall x :: x in Remove(s, c) <==> x in s && x != c
  {
    if s != [] {
      RemoveIs(s[1..], c);
      assert s == [s[0]] + s[1..];
      assert s[0] !in s[1..];
    }
  }

  lemma AppendDistinct(s: seq<nat>, c: nat)
    requires Distinct(s) && c !in s
    ensures Distinct(s + [c])
  {
  }

  /** What concerns the bucket alone. */
  ghost predicate BucketInv(names: set<Name>, b: Bucket) {
    Partitioned(b) && Matched(b) && Named(names, b)
  }

  lemma CreateKeeps(names: set<Name>, p: Pool)
    requires Inv(names, p)
    ensures Inv(names, Apply(p, NewClient))
  {
    var q := Apply(p, NewClient);
    AppendDistinct(p.bucket.idle, p.bucket.created);
    assert forall c :: HoldersOf(q.holders, c) == HoldersOf(p.holders, c);
  }

  lemma ReadKeeps(names: set<Name>, p: Pool, h: nat)
    requires Inv(names, p) && Enabled(p, ReadKey(h))
    ensures Inv(names, Apply(p, ReadKey(h)))
  {
    var q := Apply(p, ReadKey(h));
    assert forall c :: HoldersOf(q.holders, c) == HoldersOf(p.holders, c);
  }

  lemma HoldersAdd(m: map<nat, Holder>, h: nat, x: Holder)
    requires h !in m
    ensures forall d :: d != x.client ==> HoldersOf(m[h := x], d) == HoldersOf(m, d)
    ensures HoldersOf(m[h := x], x.client) == HoldersOf(m, x.client) + {h}
    ensures |HoldersOf(m[h := x], x.client)| == |HoldersOf(m, x.client)| + 1
  {
    assert HoldersOf(m[h := x], x.client) == HoldersOf(m, x.client) + {h};
  }

  lemma HoldersDrop(m: map<nat, Holder>, h: nat)
    requires h in m
    ensures forall d :: d != m[h].client ==> HoldersOf(m - {h}, d) == HoldersOf(m, d)
    ensures h in HoldersOf(m, m[h].client)
    ensures HoldersOf(m - {h}, m[h].client) == HoldersOf(m, m[h].client) - {h}
    ensures |HoldersOf(m - {h}, m[h].client)| == |HoldersOf(m, m[h].client)| - 1
  {
    assert HoldersOf(m - {h}, m[h].client) == HoldersOf(m, m[h].client) - {h};
  }

  /** A new holder is counted if the entry of its client goes up by one and the others stay. */
  lemma CountedAdd(p: Pool, q: Pool, h: nat, x: Holder)
    requires Counted(p) && h !in p.holders && q.holders == p.holders[h := x]
    requires forall k :: k in q.bucket.table ==>
      if q.bucket.table[k].client == x.client then
        q.bucket.table[k].counter == |HoldersOf(p.holders, x.client)| + 1
      else k in p.bucket.table && q.bucket.table[k] == p.bucket.table[k]
    ensures Counted(q)
  {
    HoldersAdd(p.holders, h, x);
  }

  lemma CountedDrop(p: Pool, q: Pool, h: nat)
    requires Counted(p) && h in p.holders && q.holders == p.holders - {h}
    requires forall k :: k in q.bucket.table ==>
      if q.bucket.table[k].client == p.holders[h].client then
        q.bucket.table[k].counter == |HoldersOf(p.holders, p.holders[h].client)| - 1 > 0
      else k in p.bucket.table && q.bucket.table[k] == p.bucket.table[k]
    ensures Counted(q)
  {
    HoldersDrop(p.holders, h);
  }

  lemma CountBucket(names: set<Name>, b: Bucket, k: string, counter: int)
    requires BucketInv(names, b) && k in b.table
    ensures BucketInv(names, b.(table := b.table[k := Entry(b.table[k].client, counter)]))
  {
  }

  /** Joining the holders of a client already working on the collection. */
  lemma ShareKeeps(names: set<Name>, p: Pool, h: nat, n: Name)
    requires Inv(names, p) && Enabled(p, Get(h, n)) && Distinguishable(names) && n in names
    requires Key(n) in p.bucket.table
    ensures Inv(names, Apply(p, Get(h, n)))
  {
    var e := p.bucket.table[Key(n)];
    assert p.bucket.selected[e.client] == n;
    CountBucket(names, p.bucket, Key(n), e.counter + 1);
    CountedAdd(p, Apply(p, Get(h, n)), h, Holding(e.client, n));
  }

  /** The bucket after its last idle client has been taken for a collection. */
  function Taken(b: Bucket, n: Name, c: nat): Bucket
    requires b.idle != []
  {
    b.(idle := b.idle[..|b.idle| - 1], selected := b.selected[c := n], busy := b.busy + [c],
       table := b.table[Key(n) := Entry(c, 1)])
  }

  lemma TakePartitioned(b: Bucket, n: Name, c: nat)
    requires Partitioned(b) && b.idle != [] && c == b.idle[|b.idle| - 1]
    ensures Partitioned(Taken(b, n, c)) && c !in b.busy
  {
    var b' := Taken(b, n, c);
    assert c in b.idle && b.idle == b'.idle + [c];
    AppendDistinct(b.busy, c);
    assert forall x :: x in b'.idle <==> x in b.idle && x != c;
  }

  lemma TakeMatched(b: Bucket, n: Name, c: nat)
    requires Matched(b) && b.idle != [] && c !in b.busy && Key(n) !in b.table
    ensures Matched(Taken(b, n, c))
  {
  }

  lemma TakeBucket(names: set<Name>, b: Bucket, n: Name, c: nat)
    requires BucketInv(names, b) && n in names && Key(n) !in b.table && b.idle != [] && c == b.idle[|b.idle| - 1]
    ensures BucketInv(names, Taken(b, n, c)) && c !in b.busy
  {
    TakePartitioned(b, n, c);
    TakeMatched(b, n, c);
  }

  lemma TakeCounted(p: Pool, q: Pool, h: nat, n: Name, c: nat)
    requires Counted(p) && Selected(p) && h !in p.holders && p.bucket.idle != [] && c !in p.bucket.busy
    requires forall k :: k in p.bucket.table ==> p.bucket.table[k].client in p.bucket.busy
    requires q == p.(bucket := Taken(p.bucket, n, c), holders := p.holders[h := Holding(c, n)])
    ensures Counted(q) && Selected(q)
  {
    assert HoldersOf(p.holders, c) == {};
    CountedAdd(p, q, h, Holding(c, n));
  }

  /** Taking an idle client. */
  lemma TakeKeeps(names: set<Name>, p: Pool, h: nat, n: Name)
    requires Inv(names, p) && Enabled(p, Get(h, n)) && Distinguishable(names) && n in names
    requires Key(n) !in p.bucket.table && p.bucket.idle != []
    ensures Inv(names, Apply(p, Get(h, n)))
  {
    var c := p.bucket.idle[|p.bucket.idle| - 1];
    TakeBucket(names, p.bucket, n, c);
    TakeCounted(p, Apply(p, Get(h, n)), h, n, c);
  }

  /** The holder's key finds its own client's entry. */
  lemma KeyFindsEntry(names: set<Name>, p: Pool, h: nat)
    requires Inv(names, p) && h in p.holders && p.holders[h].Releasing? && Distinguishable(names)
    ensures p.holders[h].key in p.bucket.table && p.holders[h].key !in RESERVED
    ensures p.bucket.table[p.holders[h].key].client == p.holders[h].client
  {
  }

  /** The bucket after a client has gone back to the idle list. */
  function Freed(b: Bucket, c: nat, k: string): Bucket {
    b.(table := b.table - {k}, busy := Remove(b.busy, c), idle := b.idle + [c])
  }

  lemma FreePartitioned(b: Bucket, c: nat, k: string)
    requires Partitioned(b) && c in b.busy
    ensures Partitioned(Freed(b, c, k))
  {
    RemoveIs(b.busy, c);
    AppendDistinct(b.idle, c);
    assert forall x :: x in Freed(b, c, k).idle <==> x in b.idle || x == c;
  }

  lemma FreeMatched(b: Bucket, c: nat, k: string)
    requires Matched(b) && Distinct(b.busy) && k in b.table && b.table[k].client == c
    ensures Matched(Freed(b, c, k))
  {
    RemoveIs(b.busy, c);
  }

  lemma FreeBucket(names: set<Name>, b: Bucket, c: nat, k: string)
    requires BucketInv(names, b) && k in b.table && k !in RESERVED
    requires b.table[k] == Entry(c, 1)
    ensures Release(b, c, k) == Released(Freed(b, c, k)) && BucketInv(names, Freed(b, c, k))
  {
    FreePartitioned(b, c, k);
    FreeMatched(b, c, k);
    RemoveIs(b.busy, c);
  }

  /** The last holder of a client gives it back. */
  lemma FreeKeeps(names: set<Name>, p: Pool, h: nat)
    requires Inv(names, p) && Enabled(p, GiveBack(h)) && Distinguishable(names)
    requires p.holders[h].key in p.bucket.table && p.bucket.table[p.holders[h].key].counter == 1
    ensures Inv(names, Apply(p, GiveBack(h)))
  {
    KeyFindsEntry(names, p, h);
    var c, k := p.holders[h].client, p.holders[h].key;
    FreeBucket(names, p.bucket, c, k);
    CountedDrop(p, Apply(p, GiveBack(h)), h);
    RemoveIs(p.bucket.busy, c);
    NoneLeft(p.holders, h);
  }

  lemma NoneLeft(m: map<nat, Holder>, h: nat)
    requires h in m && |HoldersOf(m, m[h].client)| == 1
    ensures forall g :: g in m && g != h ==> m[g].client != m[h].client
  {
    HoldersDrop(m, h);
    assert HoldersOf(m - {h}, m[h].client) == {};
    forall g | g in m && g != h ensures m[g].client != m[h].client {
      assert g !in HoldersOf(m - {h}, m[h].client);
    }
  }

  lemma GiveBackKeeps(names: set<Name>, p: Pool, h: nat)
    requires Inv(names, p) && Enabled(p, GiveBack(h)) && Distinguishable(names)
    ensures Inv(names, Apply(p, GiveBack(h)))
  {
    KeyFindsEntry(names, p, h);
    var k := p.holders[h].key;
    if p.bucket.table[k].counter == 1 {
      FreeKeeps(names, p, h);
    } else {
      CountBucket(names, p.bucket, k, p.bucket.table[k].counter - 1);
      CountedDrop(p, Apply(p, GiveBack(h)), h);
    }
  }

  // ---------- Whole runs ----------

  /** Every interleaving of creations, gets and releases on distinguishable names keeps the invariant. */
  lemma {:induction false} RunKeeps(names: set<Name>, p: Pool, steps: seq<Step>)
    requires Distinguishable(names) && Inv(names, p) && Runnable(p, steps) && Uses(names, steps)
    ensures Inv(names, Run(p, steps))
    decreases |steps|
  {
    if steps != [] {
      match steps[0] {
        case NewClient => CreateKeeps(names, p);
        case ReadKey(h) => ReadKeeps(names, p, h);
        case GiveBack(h) => GiveBackKeeps(names, p, h);
        case Get(h, n) =>
          assert steps[0] in steps;
          if Key(n) in p.bucket.table {
            ShareKeeps(names, p, h, n);
          } else if p.bucket.idle != [] {
            TakeKeeps(names, p, h, n);
          }
      }
      RunKeeps(names, Apply(p, steps[0]), steps[1..]);
    }
  }

  /** What a thread relies on: the lock is free, and its client works on the collection it asked for. */
  ghost predicate Sound(p: Pool) {
    && !p.stuck
    && forall h :: h in p.holders ==>
         && p.holders[h].client in p.bucket.selected
         && p.bucket.selected[p.holders[h].client] == p.holders[h].name
  }

  ghost predicate AlwaysSound(names: set<Name>) {
    forall steps :: Runnable(EMPTY, steps) && Uses(names, steps) ==> Sound(Run(EMPTY, steps))
  }

  lemma {:induction false} UnrollTwo(p: Pool, a: Step, b: Step)
    requires Enabled(p, a) && Enabled(Apply(p, a), b)
    ensures Runnable(p, [a, b]) && Run(p, [a, b]) == Apply(Apply(p, a), b)
  {
    var q := Apply(p, a);
    assert [a, b][1..] == [b] && [b][1..] == [];
    assert Run(q, [b]) == Run(Apply(q, b), []);
  }

  /** Two names with the same key: the second thread is handed a client working for the first. */
  lemma CollisionMisdirects(a: Name, b: Name)
    requires a != b && Key(a) == Key(b) && Key(a) !in RESERVED
    ensures var steps := [NewClient, Get(0, a), Get(1, b)];
            && Runnable(EMPTY, steps)
            && var p := Run(EMPTY, steps);
            && !Sound(p) && 1 in p.holders && p.holders[1].name == b
            && p.holders[1].client in p.bucket.selected && p.bucket.selected[p.holders[1].client] == a
            && 0 in p.holders && p.holders[0].client == p.holders[1].client
  {
    var steps := [NewClient, Get(0, a), Get(1, b)];
    var p := Apply(EMPTY, NewClient);
    var q := Apply(p, Get(0, a));
    UnrollTwo(p, Get(0, a), Get(1, b));
    assert steps[1..] == [Get(0, a), Get(1, b)];
    var r := Apply(q, Get(1, b));
    assert 1 in r.holders && r.bucket.selected[r.holders[1].client] == a;
  }

  /** Once an exception has left the lock taken it stays taken, and nobody gets or gives back a client any more. */
  lemma {:induction false} StuckStays(p: Pool, steps: seq<Step>)
    requires p.stuck && Runnable(p, steps)
    ensures Run(p, steps).stuck && Run(p, steps).holders.Keys == p.holders.Keys
    decreases |steps|
  {
    if steps != [] {
      StuckStays(Apply(p, steps[0]), steps[1..]);
    }
  }

  /** A name that spells a bookkeeping key: the thread dies holding the lock, and no thread gets a client however
      the run goes on. */
  lemma ReservedJams(a: Name, more: seq<Step>)
    requires Key(a) in RESERVED
    ensures Runnable(EMPTY, [NewClient, Get(0, a)]) && !Sound(Run(EMPTY, [NewClient, Get(0, a)]))
    ensures Runnable(Run(EMPTY, [NewClient, Get(0, a)]), more) ==>
              var p := Run(Run(EMPTY, [NewClient, Get(0, a)]), more);
              p.stuck && p.holders == map[]
  {
    UnrollTwo(EMPTY, NewClient, Get(0, a));
    var p := Run(EMPTY, [NewClient, Get(0, a)]);
    if Runnable(p, more) {
      StuckStays(p, more);
      assert Run(p, more).holders.Keys == {};
    }
  }

  /** The pool serves every interleaving soundly exactly when the names in use are distinguishable. */
  lemma SoundIffDistinguishable(names: set<Name>)
    ensures AlwaysSound(names) <==> Distinguishable(names)
  {
    if Distinguishable(names) {
      forall steps | Runnable(EMPTY, steps) && Uses(names, steps) ensures Sound(Run(EMPTY, steps)) {
        RunKeeps(names, EMPTY, steps);
      }
    } else if a :| a in names && Key(a) in RESERVED {
      ReservedJams(a, []);
      assert Uses(names, [NewClient, Get(0, a)]);
    } else {
      var a, b :| a in names && b in names && Key(a) == Key(b) && a != b;
      CollisionMisdirects(a, b);
      assert Uses(names, [NewClient, Get(0, a), Get(1, b)]);
    }
  }

  /** `("a", "bc")` and `("ab", "c")` are such names. */
  lemma CollisionExists()
    ensures !Distinguishable({("a", "bc"), ("ab", "c")})
    ensures !Distinguishable({("lo", "ck")})
  {
    var a: Name, b: Name := ("a", "bc"), ("ab", "c");
    assert Key(a) == Key(b) == "abc" && a.0 != b.0;
    var r: Name := ("lo", "ck");
    assert Key(r) == "lock";
  }

  lemma EmptyIfNoMember(s: seq<nat>)
    ensures (forall c :: c !in s) <==> s == []
  {
    assert s != [] ==> s[0] in s;
  }

  /** Along any such run: holders of one client asked for the same collection, a client's entry counts
      its holders, and once nobody holds anything every client is idle again. */
  lemma PoolConserves(names: set<Name>, steps: seq<Step>)
    requires Distinguishable(names) && Runnable(EMPTY, steps) && Uses(names, steps)
    ensures var p := Run(EMPTY, steps);
            && (forall g, h :: g in p.holders && h in p.holders && p.holders[g].client == p.holders[h].client
                  ==> p.holders[g].name == p.holders[h].name)
            && (forall h :: h in p.holders ==>
                  var k := Key(p.holders[h].name);
                  && k in p.bucket.table && p.bucket.table[k].client == p.holders[h].client
                  && p.bucket.table[k].counter == |HoldersOf(p.holders, p.holders[h].client)|)
            && (p.holders == map[] ==>
                  && p.bucket.table == map[] && p.bucket.busy == [] && Distinct(p.bucket.idle)
                  && forall c: nat :: c in p.bucket.idle <==> c < p.bucket.created)
  {
    RunKeeps(names, EMPTY, steps);
    var p := Run(EMPTY, steps);
    if p.holders == map[] {
      assert forall c :: HoldersOf(p.holders, c) == {};
      assert p.bucket.table.Keys == {};
      EmptyIfNoMember(p.bucket.busy);
    }
  }

  // ---------- What a get answers ----------

  /** For every bucket and name: a get raises exactly on a bookkeeping key, and otherwise yields a client if and only
      if the collection has an entry or some client is idle. With an entry it is the entry's client, and only the
      counter changes; without one it is taken off the idle list, selected on the name, and alone on its new entry. */
  lemma GetAnswers(b: Bucket, n: Name)
    ensures Acquire(b, n).Raised? <==> Key(n) in RESERVED
    ensures Key(n) !in RESERVED ==> (Acquire(b, n).Acquired? <==> Key(n) in b.table || b.idle != [])
    ensures Key(n) !in RESERVED && Key(n) in b.table ==>
              var r := Acquire(b, n);
              && r.client == b.table[Key(n)].client
              && r.bucket == b.(table := r.bucket.table)
              && r.bucket.table.Keys == b.table.Keys
              && r.bucket.table[Key(n)].client == r.client
              && r.bucket.table[Key(n)].counter == b.table[Key(n)].counter + 1
              && forall k :: k in b.table && k != Key(n) ==> r.bucket.table[k] == b.table[k]
    ensures Key(n) !in RESERVED && Key(n) !in b.table && b.idle != [] ==>
              var r := Acquire(b, n);
              && r.client in b.idle && b.idle == r.bucket.idle + [r.client] && r.bucket.busy == b.busy + [r.client]
              && r.bucket.created == b.created
              && r.bucket.selected == b.selected[r.client := n]
              && r.bucket.table == b.table[Key(n) := Entry(r.client, 1)]
  {
    if b.idle != [] {
      var last := |b.idle| - 1;
      assert b.idle == b.idle[..last] + [b.idle[last]];
    }
  }

  /** For every bucket, client and key: a release fails exactly when the key has no entry, or has one with a single
      holder whose client is not busy. It lowers the counter by one, or with the last holder drops the entry and moves
      the client from the busy list to the end of the idle list. */
  lemma ReleaseAnswers(b: Bucket, c: nat, k: string)
    ensures Release(b, c, k).Failed? <==>
            k in RESERVED || k !in b.table || (b.table[k].counter == 1 && c !in b.busy)
    ensures Release(b, c, k).bucket.created == b.created && Release(b, c, k).bucket.selected == b.selected
    ensures Release(b, c, k).Released? ==>
              var r := Release(b, c, k).bucket;
              if b.table[k].counter == 1 then
                && r.table.Keys == b.table.Keys - {k} && r.idle == b.idle + [c]
                && multiset(b.busy) == multiset(r.busy) + multiset{c}
              else
                && r.table == b.table[k := Entry(b.table[k].client, b.table[k].counter - 1)]
                && r.idle == b.idle && r.busy == b.busy
  {
    if c in b.busy { RemoveOnce(b.busy, c); }
  }

  lemma {:induction false} RemoveOnce(s: seq<nat>, c: nat)
    requires c in s
    ensures multiset(s) == multiset(Remove(s, c)) + multiset{c}
    decreases |s|
  {
    assert s == [s[0]] + s[1..];
    if s[0] != c {
      RemoveOnce(s[1..], c);
    }
  }

  /** In every state that a run reaches on distinguishable names: a get for one of them is put off exactly when every
      client is held, and none of them by a thread working on that collection. It gives that thread's client if
      there is one, and otherwise a client that nobody holds. */
  lemma PoolServes(names: set<Name>, steps: seq<Step>, n: Name)
    requires Distinguishable(names) && Runnable(EMPTY, steps) && Uses(names, steps) && n in names
    ensures var p := Run(EMPTY, steps);
            && (Acquire(p.bucket, n).Retry? <==>
                  && (forall c: nat :: c < p.bucket.created ==> HoldersOf(p.holders, c) != {})
                  && forall h :: h in p.holders ==> p.holders[h].name != n)
            && (Acquire(p.bucket, n).Acquired? ==>
                  var c := Acquire(p.bucket, n).client;
                  && c < p.bucket.created
                  && (forall h :: h in p.holders && p.holders[h].name == n ==> p.holders[h].client == c)
                  && ((forall h :: h in p.holders ==> p.holders[h].name != n) ==> HoldersOf(p.holders, c) == {}))
  {
    RunKeeps(names, EMPTY, steps);
    var p := Run(EMPTY, steps);
    GetAnswers(p.bucket, n);
    EntryIffHeld(names, p, n);
    IdleIffFree(names, p);
  }

  /** A collection has an entry exactly when some thread holds a client for it, and then it is that client's. */
  lemma EntryIffHeld(names: set<Name>, p: Pool, n: Name)
    requires Inv(names, p) && Distinguishable(names) && n in names
    ensures Key(n) in p.bucket.table <==> exists h :: h in p.holders && p.holders[h].name == n
    ensures forall h :: h in p.holders && p.holders[h].name == n ==>
              Key(n) in p.bucket.table && p.bucket.table[Key(n)].client == p.holders[h].client
  {
    if Key(n) in p.bucket.table {
      var c := p.bucket.table[Key(n)].client;
      assert HoldersOf(p.holders, c) != {};
      var h :| h in HoldersOf(p.holders, c);
      assert p.holders[h].name == n;
    }
  }

  /** A client is idle exactly when nobody holds it. */
  lemma IdleIffFree(names: set<Name>, p: Pool)
    requires Inv(names, p)
    ensures forall c: nat :: c < p.bucket.created ==> (c in p.bucket.idle <==> HoldersOf(p.holders, c) == {})
    ensures p.bucket.idle == [] <==> forall c: nat :: c < p.bucket.created ==> HoldersOf(p.holders, c) != {}
  {
    forall c: nat | c < p.bucket.created ensures c in p.bucket.idle <==> HoldersOf(p.holders, c) == {} {
      if c in p.bucket.busy {
        var k := Key(p.bucket.selected[c]);
        assert p.bucket.table[k].client == c;
      } else {
        assert forall h :: h in p.holders ==> p.holders[h].client != c;
      }
    }
    EmptyIfNoMember(p.bucket.idle);
  }

  function Creations(steps: seq<Step>): nat {
    if steps == [] then 0 else (if steps[0].NewClient? then 1 else 0) + Creations(steps[1..])
  }

  /** A run has exactly the clients that it created. */
  lemma {:induction false} RunCreates(p: Pool, steps: seq<Step>)
    requires Runnable(p, steps)
    ensures Run(p, steps).bucket.created == p.bucket.created + Creations(steps)
    decreases |steps|
  {
    if steps != [] {
      RunCreates(Apply(p, steps[0]), steps[1..]);
    }
  }

  /** A request for n clients adds n to those created, all of them idle and on the default collection. */
  lemma {:induction false} CreateManyAdds(b: Bucket, n: nat)
    ensures var r := CreateMany(b, n);
            && r.created == b.created + n && r.busy == b.busy && r.table == b.table
            && r.idle == b.idle + seq(n, i requires 0 <= i => b.created + i)
            && (forall c :: c in r.selected <==> c in b.selected || b.created <= c < b.created + n)
            && (forall c :: c in r.selected ==>
                  r.selected[c] == if b.created <= c < b.created + n then ("_default", "_default") else b.selected[c])
    decreases n
  {
    if n > 0 {
      CreateManyAdds(b, n - 1);
      var r := CreateMany(b, n - 1);
      assert r.idle + [r.created] == b.idle + seq(n, i requires 0 <= i => b.created + i);
    }
  }

  // ---------- The pool object ----------

  /** The result of a get: no such bucket, a client, no client free yet, or an exception. */
  datatype Got = NoBucket | Client(id: nat) | Busy | Error

  class SDKClientPool {
    var clients: map<string, Bucket>

    constructor ()
      ensures clients == map[]
    {
      clients := map[];
    }

    method CreateClients(bucket: string, reqClients: nat)
      modifies this
      ensures clients == old(clients)[bucket := CreateMany(
        if bucket in old(clients) then old(clients)[bucket] else NEW_BUCKET, reqClients)]
    {
      if bucket !in clients {
        clients := clients[bucket := NEW_BUCKET];
      }
      ghost var start := clients;
      for i := 0 to reqClients
        invariant bucket in start
        invariant clients == start[bucket := CreateMany(start[bucket], i)]
      {
        var b := clients[bucket];
        clients := clients[bucket :=
          b.(created := b.created + 1, idle := b.idle + [b.created], selected := b.selected[b.created := DEFAULT])];
      }
    }

    /** One turn of the loop of `get_client_for_bucket`. */
    method GetClientOnce(bucket: string, scope: string, collection: string) returns (r: Got)
      modifies this
      ensures bucket !in old(clients) ==> r == NoBucket && clients == old(clients)
      ensures bucket in old(clients) ==>
        match Acquire(old(clients)[bucket], (scope, collection))
        case Acquired(b, c) => r == Client(c) && clients == old(clients)[bucket := b]
        case Retry => r == Busy && clients == old(clients)
        case Raised => r == Error && clients == old(clients)
      ensures bucket in old(clients) ==>
        var b, k := old(clients)[bucket], scope + collection;
        && (r == Error <==> k in {"lock", "idle_clients", "busy_clients"})
        && (r == Busy <==> r != Error && k !in b.table && b.idle == [])
        && (r.Client? ==> r.id == if k in b.table then b.table[k].client else b.idle[|b.idle| - 1])
    {
      var colName := scope + collection;
      if bucket !in clients {
        return NoBucket;
      }
      var b := clients[bucket];
      if colName in RESERVED {
        return Error;
      }
      if colName in b.table {
        var e := b.table[colName];
        r := Client(e.client);
        b := b.(table := b.table[colName := e.(counter := e.counter + 1)]);
      } else if b.idle != [] {
        var c := b.idle[|b.idle| - 1];
        b := b.(idle := b.idle[..|b.idle| - 1]);
        b := b.(selected := b.selected[c := (scope, collection)]);
        b := b.(busy := b.busy + [c]);
        b := b.(table := b.table[colName := Entry(c, 1)]);
        r := Client(c);
      } else {
        return Busy;
      }
      clients := clients[bucket := b];
    }

    /** The locked part of `release_client`, with the key read before. */
    method ReleaseClient(bucket: string, c: nat, colName: string) returns (ok: bool)
      modifies this
      ensures bucket !in old(clients) ==> ok && clients == old(clients)
      ensures bucket in old(clients) ==>
        match Release(old(clients)[bucket], c, colName)
        case Released(b) => ok && clients == old(clients)[bucket := b]
        case Failed(b) => !ok && clients == old(clients)[bucket := b]
    {
      if bucket !in clients {
        return true;
      }
      var b := clients[bucket];
      if colName in RESERVED || colName !in b.table {
        return false;
      }
      if b.table[colName].counter == 1 {
        b := b.(table := b.table - {colName});
        if c !in b.busy {
          clients := clients[bucket := b];
          return false;
        }
        b := b.(busy := Remove(b.busy, c));
        b := b.(idle := b.idle + [c]);
      } else {
        var e := b.table[colName];
        b := b.(table := b.table[colName := Entry(e.client, e.counter - 1)]);
      }
      clients := clients[bucket := b];
      return true;
    }
  }

  function CreateMany(b: Bucket, n: nat): Bucket {
    if n == 0 then b else Create(CreateMany(b, n - 1))
  }
}
