/**
 How the document loader divides its work (couchbase_utils/bucket_utils/thanosied.py): the documents
 are split among workers, each worker's into batches, and the deletes among the first workers.
 */
module LoadSplit {
  datatype Operation = Upsert | Delete

  /** Documents `start` up to but not including `end`. */
  datatype Batch = Batch(operation: Operation, start: int, end: int)

  datatype Args = Args(count: int, startDocument: int, numDelete: int, delete: bool)

  /** Division of the source's integers, rounding down. */
  function FloorDiv(a: int, b: int): int
    requires b != 0
  {
    if b > 0 then a / b else (-a) / (-b)
  }

  /** Whether a `range` that counts by `step` still has `i` before it reaches `hi`. */
  predicate Within(i: int, hi: int, step: int) {
    if step > 0 then i < hi else step < 0 && i > hi
  }

  function Distance(i: int, hi: int, step: int): nat {
    if Within(i, hi, step) then if step > 0 then hi - i else i - hi else 0
  }

  // ---------- Batches ----------

  function Batches(op: Operation, i: int, hi: int, size: int): seq<Batch>
    decreases Distance(i, hi, size)
  {
    if Within(i, hi, size)
    then [Batch(op, i, if i + size > hi then hi else i + size)] + Batches(op, i + size, hi, size)
    else []
  }

  /** The upsert batches of a worker. */
  function UpsertBatches(a: Args, size: int): seq<Batch> {
    Batches(Upsert, a.startDocument, a.startDocument + a.count, size)
  }

  function Capped(a: Args): int {
    if a.count < a.numDelete then a.count else a.numDelete
  }

  /** The documents that a worker's arguments make it work on begin at `startDocument`; this is how many. */
  function Extent(op: Operation, a: Args): int {
    if op.Upsert? then a.count else if a.delete then Capped(a) else 0
  }

  /** The batches of all workers from the k-th on, for one kind of operation. */
  function Job(op: Operation, size: int, arguments: seq<Args>, k: nat): seq<Batch>
    requires k <= |arguments|
    decreases |arguments| - k
  {
    if k == |arguments| then []
    else
      var a := arguments[k];
      Batches(op, a.startDocument, a.startDocument + Extent(op, a), size) + Job(op, size, arguments, k + 1)
  }

  /** The number of batches that a document is in. */
  function Hits(bs: seq<Batch>, d: int): nat {
    if bs == [] then 0 else (if bs[0].start <= d < bs[0].end then 1 else 0) + Hits(bs[1..], d)
  }

  function Once(lo: int, d: int, hi: int): nat {
    if lo <= d < hi then 1 else 0
  }

  /** Each document from `lo` up to `hi` is in one batch, and no other document is in any. */
  ghost predicate Covers(bs: seq<Batch>, lo: int, hi: int) {
    forall d :: Hits(bs, d) == Once(lo, d, hi)
  }

  lemma {:induction false} HitsConcat(a: seq<Batch>, b: seq<Batch>, d: int)
    ensures Hits(a + b, d) == Hits(a, d) + Hits(b, d)
    decreases |a|
  {
    if a == [] {
      assert a + b == b;
    } else {
      assert (a + b)[1..] == a[1..] + b;
      HitsConcat(a[1..], b, d);
    }
  }

  /** Batches of a positive size hold each document of their interval once and no other. */
  lemma {:induction false} BatchesCover(op: Operation, lo: int, hi: int, size: int, d: int)
    requires size > 0
    ensures Hits(Batches(op, lo, hi, size), d) == Once(lo, d, hi)
    decreases Distance(lo, hi, size)
  {
    if lo < hi {
      BatchesCover(op, lo + size, hi, size, d);
    }
  }

  /** All batches are full but the last, which is not empty. */
  lemma {:induction false} BatchesFull(op: Operation, lo: int, hi: int, size: int, k: nat)
    requires size > 0 && k < |Batches(op, lo, hi, size)|
    ensures var bs := Batches(op, lo, hi, size);
            && bs[k].operation == op && bs[k].start < bs[k].end
            && (if k < |bs| - 1 then bs[k].end - bs[k].start == size else bs[k].end == hi && hi - bs[k].start <= size)
    decreases Distance(lo, hi, size)
  {
    if k > 0 {
      BatchesFull(op, lo + size, hi, size, k - 1);
    }
  }

  /** The k-th batch, for a size of either sign: it begins k sizes into the interval, and ends a size further on or
      where the interval does; there is one for each such beginning that the interval reaches. */
  lemma {:induction false} BatchAt(op: Operation, lo: int, hi: int, size: int, k: nat)
    requires size != 0
    ensures var bs, at := Batches(op, lo, hi, size), lo + size * k;
            && (k < |bs| <==> Within(at, hi, size))
            && (k < |bs| ==> bs[k] == Batch(op, at, if at + size > hi then hi else at + size))
    decreases k
  {
    if k > 0 {
      NextBlock(size, k - 1);
      if Within(lo, hi, size) {
        BatchAt(op, lo + size, hi, size, k - 1);
      } else {
        Away(lo, hi, size, k);
      }
    }
  }

  // ---------- The workers' shares ----------

  function Share(args: Args, workers: int, i: nat): Args
    requires i < workers
  {
    var items := args.count / workers;
    args.(count := if i == workers - 1 then args.count - items * i else items,
          startDocument := items * i + args.startDocument)
  }

  function Shares(args: Args, workers: nat): seq<Args> {
    seq(workers, i requires 0 <= i < workers => Share(args, workers, i))
  }

  lemma JobStep(op: Operation, size: int, arguments: seq<Args>, k: nat, d: int)
    requires size > 0 && k < |arguments|
    ensures var a := arguments[k];
            Hits(Job(op, size, arguments, k), d) ==
            Once(a.startDocument, d, a.startDocument + Extent(op, a)) + Hits(Job(op, size, arguments, k + 1), d)
  {
    var a := arguments[k];
    var hi := a.startDocument + Extent(op, a);
    HitsConcat(Batches(op, a.startDocument, hi, size), Job(op, size, arguments, k + 1), d);
    BatchesCover(op, a.startDocument, hi, size, d);
  }

  lemma NextBlock(w: int, k: int)
    ensures w * (k + 1) == w * k + w
  {
  }

  lemma Within1(w: int, k: nat, n: nat)
    requires w >= 0 && k <= n
    ensures w * k <= w * n
  {
  }

  lemma ShareIs(args: Args, workers: nat, w: int, k: nat, i: int)
    requires k < workers && w == args.count / workers && i == w * k
    ensures Share(args, workers, k).startDocument == args.startDocument + i
    ensures Share(args, workers, k).count == if k == workers - 1 then args.count - i else w
    ensures w * (k + 1) == i + w
    ensures w >= 0 ==> i + w <= args.count
  {
    NextBlock(w, k);
    if w >= 0 {
      Within1(w, k + 1, workers);
      assert w * workers <= args.count;
    }
  }

  /** The k-th worker's share lies k shares into the documents; all are equal but the last, which takes the rest, less
      than one document a worker more. */
  lemma SharesAre(args: Args, workers: nat, k: nat)
    requires k < workers
    ensures |Shares(args, workers)| == workers
    ensures var w, r, share := args.count / workers, args.count % workers, Shares(args, workers)[k];
            && share.startDocument == args.startDocument + w * k
            && share.count == (if k < workers - 1 then w else w + r) && 0 <= r < workers
            && share.numDelete == args.numDelete && share.delete == args.delete
  {
    ShareIs(args, workers, args.count / workers, k, (args.count / workers) * k);
    var last := LastBlock(args.count, workers);
  }

  /** The upserts of the workers from the k-th on; with a negative count only the last worker has any. */
  lemma {:induction false} JobFrom(args: Args, workers: nat, size: int, w: int, k: nat, i: int, d: int)
    requires size > 0 && k < workers && w == args.count / workers && i == w * k
    ensures Hits(Job(Upsert, size, Shares(args, workers), k), d) ==
            Once(args.startDocument + (if w >= 0 then i else w * (workers - 1)), d, args.startDocument + args.count)
    decreases workers - k
  {
    JobStep(Upsert, size, Shares(args, workers), k, d);
    ShareIs(args, workers, w, k, i);
    if k < workers - 1 {
      JobFrom(args, workers, size, w, k + 1, i + w, d);
    }
  }

  /** For a positive batch size, every document is upserted by exactly one batch of one worker if it is
      among those asked for, and by none otherwise; except that a negative count can make the last
      worker load documents. */
  lemma UpsertsCover(args: Args, workers: nat, size: int)
    requires size > 0 && workers > 0
    ensures Covers(Job(Upsert, size, Shares(args, workers), 0), args.startDocument, args.startDocument + args.count)
            <==> args.count >= 0 || args.count / workers + args.count % workers <= 0
  {
    var w, hi := args.count / workers, args.startDocument + args.count;
    var last := LastBlock(args.count, workers);
    var lo := args.startDocument + if w >= 0 then 0 else last;
    var job := Job(Upsert, size, Shares(args, workers), 0);
    assert Covers(job, lo, hi) by {
      forall d ensures Hits(job, d) == Once(lo, d, hi) {
        JobFrom(args, workers, size, w, 0, 0, d);
      }
    }
    if w < 0 {
      StrayCovers(job, lo, args.startDocument, hi);
    }
  }

  lemma LastBlock(count: int, workers: nat) returns (last: int)
    requires workers > 0
    ensures last == (count / workers) * (workers - 1)
    ensures count - last == count / workers + count % workers
    ensures count / workers < 0 <==> count < 0
  {
    last := (count / workers) * (workers - 1);
    NextBlock(count / workers, workers - 1);
  }

  lemma StrayCovers(bs: seq<Batch>, stray: int, lo: int, hi: int)
    requires Covers(bs, stray, hi) && hi < lo
    ensures Covers(bs, lo, hi) <==> hi <= stray
  {
    assert Hits(bs, stray) == Once(stray, stray, hi);
  }

  // ---------- The deletes ----------

  datatype Split = Split(arguments: seq<Args>) | ZeroDivisionError | ValueError | IndexError

  function DeleteShare(n: int, w: int, i: int): int {
    if n < w then n else if i + w > n then i + w - n else w
  }

  function Keep(a: Args): Args {
    a.(delete := false, numDelete := 0)
  }

  function Assign(arguments: seq<Args>, c: nat, i: int, n: int, w: int): Split
    requires c <= |arguments|
    decreases Distance(i, n, w)
  {
    if !Within(i, n, w) then
      Split(arguments[..c] + seq(|arguments| - c, j requires 0 <= j < |arguments| - c => Keep(arguments[c + j])))
    else if c == |arguments| then IndexError
    else Assign(arguments[c := arguments[c].(numDelete := DeleteShare(n, w, i))], c + 1, i + w, n, w)
  }

  /** What becomes of the arguments of the worker whose block of documents begins at offset `i`. */
  function Given(a: Args, i: int, n: int, w: int): Args {
    if Within(i, n, w) then a.(numDelete := DeleteShare(n, w, i)) else Keep(a)
  }

  /** A range that is over stays over. */
  lemma Away(i: int, n: int, w: int, m: nat)
    requires w != 0 && !Within(i, n, w)
    ensures !Within(i + w * m, n, w)
  {
    if w > 0 { Within1(w, 0, m); } else { Within1(-w, 0, m); assert -w * m == -(w * m); }
  }

  /** The delete loop stays within the worker list exactly when there are enough workers. */
  lemma {:induction false} AssignFits(arguments: seq<Args>, c: nat, i: int, n: int, w: int)
    requires c <= |arguments| && w != 0
    ensures var r := Assign(arguments, c, i, n, w);
            if Within(i + w * (|arguments| - c), n, w) then r == IndexError
            else r.Split? && |r.arguments| == |arguments|
    decreases Distance(i, n, w)
  {
    if !Within(i, n, w) {
      Away(i, n, w, |arguments| - c);
    } else if c < |arguments| {
      AssignFits(arguments[c := arguments[c].(numDelete := DeleteShare(n, w, i))], c + 1, i + w, n, w);
      NextBlock(w, |arguments| - (c + 1));
    }
  }

  /** The delete loop in closed form. */
  lemma {:induction false} AssignAt(arguments: seq<Args>, c: nat, i: int, n: int, w: int, k: nat)
    requires c <= |arguments| && w != 0 && k < |arguments| && Assign(arguments, c, i, n, w).Split?
    ensures var r := Assign(arguments, c, i, n, w).arguments;
            |r| == |arguments| && r[k] == if k < c then arguments[k] else Given(arguments[k], i + w * (k - c), n, w)
    decreases Distance(i, n, w)
  {
    if !Within(i, n, w) {
      if k >= c { Away(i, n, w, k - c); }
    } else {
      AssignAt(arguments[c := arguments[c].(numDelete := DeleteShare(n, w, i))], c + 1, i + w, n, w, k);
      NextBlock(w, k - (c + 1));
    }
  }

  /** The arguments after the deletes have been divided among the workers' shares. */
  function Divide(args: Args, workers: nat): Split
    requires workers > 0
  {
    var w := args.count / workers;
    if w == 0 then ValueError else Assign(Shares(args, workers), 0, 0, args.numDelete, w)
  }

  /** The k-th worker deletes if the deletes reach its block, which begins at offset `i`: all of them if they are fewer
      than a share, and otherwise a share, or as much of one as lies beyond the deletes. */
  lemma DivideAt(args: Args, workers: nat, k: nat, i: int)
    requires k < workers && Divide(args, workers).Split? && i == (args.count / workers) * k
    ensures var r, w, n := Divide(args, workers).arguments, args.count / workers, args.numDelete;
            && w != 0 && |r| == workers
            && r[k].count == Shares(args, workers)[k].count
            && r[k].startDocument == Shares(args, workers)[k].startDocument
            && (r[k].delete <==> args.delete && Within(i, n, w))
            && r[k].numDelete == if !Within(i, n, w) then 0 else if n < w then n else if i + w > n then i + w - n else w
  {
    AssignAt(Shares(args, workers), 0, 0, args.numDelete, args.count / workers, k);
  }

  function SumDeletes(arguments: seq<Args>, k: nat): int
    requires k <= |arguments|
    decreases |arguments| - k
  {
    if k == |arguments| then 0 else arguments[k].numDelete + SumDeletes(arguments, k + 1)
  }

  /** When line 568 does what the comment above it says. */
  predicate Exact(n: int, w: int)
    requires w > 0
  {
    n < w || n % w == 0 || 2 * (n % w) == w
  }

  /** The deletes assigned at block offset `i`, next to those meant. */
  lemma ShareRight(n: int, w: int, i: int)
    requires w > 0 && i % w == 0 && 0 <= i < n
    ensures 0 <= DeleteShare(n, w, i) <= w
    ensures Exact(n, w) || i + w <= n ==> DeleteShare(n, w, i) == if i + w <= n then w else n - i
    ensures !Exact(n, w) && i + w > n ==> DeleteShare(n, w, i) == w - n % w != n % w == n - i
  {
    if i + w > n {
      Remainder(n - i, i / w, w);
    }
  }

  lemma Remainder(r: int, q: int, w: int)
    requires 0 <= r < w
    ensures (w * q + r) % w == r && (w * q + r) / w == q
  {
    var a := w * q + r;
    Nearby(w, a / w - q, r - a % w);
  }

  lemma Nearby(w: int, k: int, e: int)
    requires w > 0 && w * k == e && -w < e < w
    ensures k == 0
  {
    if k >= 1 { Within1(w, 1, k); }
  }

  /** The arguments of the workers once the deletes are divided. */
  ghost predicate Divided(args: Args, w: int, arguments: seq<Args>) {
    && |arguments| > 0 && w > 0 && args.delete && w == args.count / |arguments|
    && Divide(args, |arguments|) == Split(arguments)
  }

  /** The deletes that the k-th worker is to make. */
  function Meant(n: int, w: int, i: int): int {
    if i + w <= n then w else if i < n then n - i else 0
  }

  lemma WorkerArgs(args: Args, w: int, arguments: seq<Args>, k: nat)
    requires Divided(args, w, arguments) && k < |arguments|
    ensures arguments[k] == Given(Share(args, |arguments|, k), w * k, args.numDelete, w)
    ensures Share(args, |arguments|, k).count >= w && 0 <= w * k
    ensures args.numDelete <= w * |arguments|
  {
    var m := |arguments|;
    AssignFits(Shares(args, m), 0, 0, args.numDelete, w);
    AssignAt(Shares(args, m), 0, 0, args.numDelete, w, k);
    NextBlock(w, m - 1);
    Within1(w, 0, k);
  }

  lemma GivenRight(a: Args, i: int, n: int, w: int)
    requires w > 0 && 0 <= i && i % w == 0 && a.delete && a.count >= w
    ensures var g := Given(a, i, n, w);
            var e := Extent(Delete, g);
            && g.startDocument == a.startDocument && e == g.numDelete && e <= w
            && (Exact(n, w) || i + w <= n || n <= i ==> e == Meant(n, w, i))
            && (!Exact(n, w) && i < n < i + w ==> e == w - n % w != n % w == n - i)
  {
    if i < n {
      ShareRight(n, w, i);
    }
  }

  lemma WorkerDeletes(args: Args, w: int, arguments: seq<Args>, k: nat, i: int)
    requires Divided(args, w, arguments) && k < |arguments| && i == w * k
    ensures arguments[k].startDocument == args.startDocument + i
    ensures var e, n := Extent(Delete, arguments[k]), args.numDelete;
            && e == arguments[k].numDelete && e <= w
            && (Exact(n, w) || i + w <= n || n <= i ==> e == Meant(n, w, i))
            && (!Exact(n, w) && i < n < i + w ==> e == w - n % w != n % w == n - i)
  {
    WorkerArgs(args, w, arguments, k);
    Remainder(0, k, w);
    GivenRight(Share(args, |arguments|, k), i, args.numDelete, w);
  }

  lemma {:induction false} Below(args: Args, w: int, arguments: seq<Args>, size: int, k: nat, d: int)
    requires size > 0 && Divided(args, w, arguments) && k <= |arguments| && d < args.startDocument + w * k
    ensures Hits(Job(Delete, size, arguments, k), d) == 0
    decreases |arguments| - k
  {
    if k < |arguments| {
      JobStep(Delete, size, arguments, k, d);
      WorkerDeletes(args, w, arguments, k, w * k);
      NextBlock(w, k);
      Below(args, w, arguments, size, k + 1, d);
    }
  }

  lemma {:induction false} Skip(args: Args, w: int, arguments: seq<Args>, size: int, k: nat, d: int)
    requires size > 0 && Divided(args, w, arguments) && k <= |arguments| && d >= args.startDocument + w * k
    ensures Hits(Job(Delete, size, arguments, 0), d) == Hits(Job(Delete, size, arguments, k), d)
    decreases k
  {
    if k > 0 {
      NextBlock(w, k - 1);
      Skip(args, w, arguments, size, k - 1, d);
      JobStep(Delete, size, arguments, k - 1, d);
      WorkerDeletes(args, w, arguments, k - 1, w * (k - 1));
    }
  }

  /** A document in the k-th worker's block is deleted by that worker or by none. */
  lemma InBlock(args: Args, w: int, arguments: seq<Args>, size: int, k: nat, d: int)
    requires size > 0 && Divided(args, w, arguments) && k < |arguments|
    requires args.startDocument + w * k <= d < args.startDocument + w * (k + 1)
    ensures Hits(Job(Delete, size, arguments, 0), d) ==
            Once(0, d - args.startDocument - w * k, Extent(Delete, arguments[k]))
  {
    Skip(args, w, arguments, size, k, d);
    JobStep(Delete, size, arguments, k, d);
    WorkerDeletes(args, w, arguments, k, w * k);
    Below(args, w, arguments, size, k + 1, d);
  }

  lemma BlockOf(o: int, w: int, m: nat) returns (k: nat)
    requires w > 0 && 0 <= o < w * m
    ensures k < m && w * k <= o < w * k + w == w * (k + 1)
  {
    k := o / w;
    if k >= m { Within1(w, m, k); }
  }

  lemma ExactCovers(args: Args, w: int, arguments: seq<Args>, size: int, d: int)
    requires size > 0 && Divided(args, w, arguments) && Exact(args.numDelete, w)
    ensures Hits(Job(Delete, size, arguments, 0), d) ==
            Once(args.startDocument, d, args.startDocument + args.numDelete)
  {
    var o, m := d - args.startDocument, |arguments|;
    WorkerArgs(args, w, arguments, 0);
    if o < 0 {
      Below(args, w, arguments, size, 0, d);
    } else if o >= w * m {
      Skip(args, w, arguments, size, m, d);
    } else {
      var k := BlockOf(o, w, m);
      InBlock(args, w, arguments, size, k, d);
      WorkerDeletes(args, w, arguments, k, w * k);
    }
  }

  lemma InexactMisses(args: Args, w: int, arguments: seq<Args>, size: int) returns (d: int)
    requires size > 0 && Divided(args, w, arguments) && !Exact(args.numDelete, w)
    ensures Hits(Job(Delete, size, arguments, 0), d) !=
            Once(args.startDocument, d, args.startDocument + args.numDelete)
  {
    var n, q, r := args.numDelete, args.numDelete / w, args.numDelete % w;
    NextBlock(w, q);
    WorkerArgs(args, w, arguments, 0);
    assert n == w * q + r;
    if q >= |arguments| { Within1(w, |arguments|, q); }
    WorkerDeletes(args, w, arguments, q, w * q);
    d := args.startDocument + w * q + if r < w - r then r else w - r;
    InBlock(args, w, arguments, size, q, d);
  }

  /** How the division of the deletes ends, for counts and delete numbers of either sign. */
  lemma DivideEnds(args: Args, workers: nat)
    requires workers > 0 && args.delete
    ensures var w, r := args.count / workers, Divide(args, workers);
            if w == 0 then r == ValueError
            else if Within(w * workers, args.numDelete, w) then r == IndexError
            else r.Split? && |r.arguments| == workers && (w > 0 ==> Divided(args, w, r.arguments))
  {
    var w, shares := args.count / workers, Shares(args, workers);
    if w != 0 {
      AssignFits(shares, 0, 0, args.numDelete, w);
    }
  }

  // ---------- Deletes with a negative count ----------

  /** A negative count gives every worker a number of deletes that is not positive. */
  lemma NegativeDeletes(args: Args, workers: nat, w: int, k: nat)
    requires workers > 0 && args.delete && w == args.count / workers < 0 && Divide(args, workers).Split? && k < workers
    ensures var r, n := Divide(args, workers).arguments, args.numDelete;
            && |r| == workers && Extent(Delete, r[k]) <= 0
            && r[k].numDelete == (if !Within(w * k, n, w) then 0 else if n < w then n else w) <= 0
  {
    AssignFits(Shares(args, workers), 0, 0, args.numDelete, w);
    AssignAt(Shares(args, workers), 0, 0, args.numDelete, w, k);
    Within1(-w, 0, k);
    assert -w * k == -(w * k);
  }

  lemma {:induction false} NegativeJob(args: Args, workers: nat, w: int, size: int, k: nat, d: int)
    requires workers > 0 && args.delete && w == args.count / workers < 0 && Divide(args, workers).Split?
    requires size > 0 && k <= |Divide(args, workers).arguments| == workers
    ensures Hits(Job(Delete, size, Divide(args, workers).arguments, k), d) == 0
    decreases workers - k
  {
    if k < workers {
      JobStep(Delete, size, Divide(args, workers).arguments, k, d);
      NegativeDeletes(args, workers, w, k);
      NegativeJob(args, workers, w, size, k + 1, d);
    }
  }

  lemma NegativeCovers(args: Args, workers: nat, w: int, size: int)
    requires workers > 0 && args.delete && w == args.count / workers < 0 && Divide(args, workers).Split? && size > 0
    ensures Covers(Job(Delete, size, Divide(args, workers).arguments, 0),
                   args.startDocument, args.startDocument + args.numDelete)
            <==> args.numDelete <= 0
  {
    NegativeDeletes(args, workers, w, 0);
    var job, lo, hi := Job(Delete, size, Divide(args, workers).arguments, 0), args.startDocument,
                       args.startDocument + args.numDelete;
    forall d ensures Hits(job, d) == 0 {
      NegativeJob(args, workers, w, size, 0, d);
    }
    assert args.numDelete > 0 ==> Once(lo, lo, hi) == 1;
  }

  lemma {:induction false} NegativeSumFrom(args: Args, workers: nat, w: int, k: nat)
    requires workers > 0 && args.delete && w == args.count / workers < 0 && Divide(args, workers).Split?
    requires k <= |Divide(args, workers).arguments| == workers
    ensures SumDeletes(Divide(args, workers).arguments, k) <= 0
    ensures !Within(w * k, args.numDelete, w) ==> SumDeletes(Divide(args, workers).arguments, k) == 0
    decreases workers - k
  {
    if k < workers {
      NegativeDeletes(args, workers, w, k);
      NegativeSumFrom(args, workers, w, k + 1);
      NextBlock(w, k);
    }
  }

  lemma NegativeSum(args: Args, workers: nat, w: int)
    requires workers > 0 && args.delete && w == args.count / workers < 0 && Divide(args, workers).Split?
    ensures SumDeletes(Divide(args, workers).arguments, 0) == args.numDelete <==>
            args.numDelete == 0 || args.numDelete == w
  {
    var n, r := args.numDelete, Divide(args, workers).arguments;
    NegativeDeletes(args, workers, w, 0);
    NegativeSumFrom(args, workers, w, 1);
    if n >= 0 {
      NegativeSumFrom(args, workers, w, 0);
    } else if n < w {
      DivideEnds(args, workers);
      NegativeDeletes(args, workers, w, 1);
      NegativeSumFrom(args, workers, w, 2);
      assert SumDeletes(r, 1) == r[1].numDelete + SumDeletes(r, 2);
    }
    assert SumDeletes(r, 0) == r[0].numDelete + SumDeletes(r, 1);
  }

  /** The documents deleted are exactly the first `numDelete`, each once, if and only if `numDelete` is
      below a worker's share, or a multiple of it, or half a share over such a multiple. With a negative count
      nothing is ever deleted. */
  lemma DeletesCover(args: Args, workers: nat, size: int)
    requires size > 0 && workers > 0 && args.delete && Divide(args, workers).Split?
    ensures args.count / workers != 0
    ensures Covers(Job(Delete, size, Divide(args, workers).arguments, 0),
                   args.startDocument, args.startDocument + args.numDelete)
            <==> if args.count < 0 then args.numDelete <= 0 else Exact(args.numDelete, args.count / workers)
  {
    DivideEnds(args, workers);
    var w, arguments := args.count / workers, Divide(args, workers).arguments;
    var last := LastBlock(args.count, workers);
    if w < 0 {
      NegativeCovers(args, workers, w, size);
    } else if Exact(args.numDelete, w) {
      forall d ensures Hits(Job(Delete, size, arguments, 0), d) ==
                       Once(args.startDocument, d, args.startDocument + args.numDelete) {
        ExactCovers(args, w, arguments, size, d);
      }
    } else {
      var d := InexactMisses(args, w, arguments, size);
    }
  }

  lemma {:induction false} SumFrom(args: Args, w: int, arguments: seq<Args>, k: nat)
    requires Divided(args, w, arguments) && k <= |arguments|
    ensures var n, i := args.numDelete, w * k;
            SumDeletes(arguments, k) ==
            if n <= i then 0 else if Exact(n, w) then n - i else n - i + w - 2 * (n % w)
    decreases |arguments| - k
  {
    WorkerArgs(args, w, arguments, 0);
    if k < |arguments| {
      SumFrom(args, w, arguments, k + 1);
      WorkerDeletes(args, w, arguments, k, w * k);
      NextBlock(w, k);
      if args.numDelete == w * k + w { Remainder(0, k + 1, w); }
    }
  }

  /** The deletes assigned over all workers sum to `numDelete` under the same condition, `numDelete` not being
      negative; with a negative count only if there are none or as many as a share. */
  lemma DeletesSum(args: Args, workers: nat)
    requires workers > 0 && args.delete && Divide(args, workers).Split?
    ensures var n, w := args.numDelete, args.count / workers;
            && w != 0
            && (SumDeletes(Divide(args, workers).arguments, 0) == n
                <==> if args.count < 0 then n == 0 || n == w else n >= 0 && Exact(n, w))
  {
    DivideEnds(args, workers);
    var w := args.count / workers;
    var last := LastBlock(args.count, workers);
    if w < 0 {
      NegativeSum(args, workers, w);
    } else {
      SumFrom(args, w, Divide(args, workers).arguments, 0);
    }
  }

  /** The comment's own example comes out right, and its neighbour does not: of 2600 deletes 2400 are made. */
  lemma CommentExample()
    ensures var a := Args(10000, 0, 2500, true);
            Divide(a, 10).Split? && SumDeletes(Divide(a, 10).arguments, 0) == 2500
    ensures var a := Args(10000, 0, 2600, true);
            Divide(a, 10).Split? && SumDeletes(Divide(a, 10).arguments, 0) == 2400
  {
    forall n | n == 2500 || n == 2600
      ensures Divide(Args(10000, 0, n, true), 10).Split?
              && SumDeletes(Divide(Args(10000, 0, n, true), 10).arguments, 0) == if n == 2500 then 2500 else 2400 {
      var a := Args(10000, 0, n, true);
      DivideEnds(a, 10);
      SumFrom(a, 1000, Divide(a, 10).arguments, 0);
    }
  }

  // ---------- The program ----------

  /** The loop that gives each worker its share. */
  method SplitLoad(args: Args, workers: int) returns (arguments: seq<Args>)
    ensures arguments == if workers > 0 then Shares(args, workers) else []
  {
    arguments := [];
    var i := 0;
    while i < workers
      invariant 0 <= i && (workers > 0 ==> i <= workers) && (workers <= 0 ==> i == 0)
      invariant |arguments| == i && forall k :: 0 <= k < i ==> arguments[k] == Share(args, workers, k)
    {
      var items := FloorDiv(args.count, workers);
      var start := items * i + args.startDocument;
      if i == workers - 1 {
        items := args.count - items * i;
      }
      arguments := arguments + [args.(count := items, startDocument := start)];
      i := i + 1;
    }
  }

  /** The loops that divide the deletes among the workers. */
  method SplitDeletes(args: Args, workers: int, given: seq<Args>) returns (r: Split)
    ensures r == if workers == 0 then ZeroDivisionError
                 else if FloorDiv(args.count, workers) == 0 then ValueError
                 else Assign(given, 0, 0, args.numDelete, FloorDiv(args.count, workers))
  {
    if workers == 0 {
      return ZeroDivisionError;
    }
    var itemsPerWorker := FloorDiv(args.count, workers);
    if itemsPerWorker == 0 {
      return ValueError;
    }
    var arguments, counter, n, i := given, 0, args.numDelete, 0;
    while Within(i, n, itemsPerWorker)
      invariant counter <= |arguments|
      invariant Assign(arguments, counter, i, n, itemsPerWorker) == Assign(given, 0, 0, n, itemsPerWorker)
      decreases Distance(i, n, itemsPerWorker)
    {
      if counter == |arguments| {
        return IndexError;
      }
      var arg := arguments[counter];
      if n < itemsPerWorker {
        arg := arg.(numDelete := n);
      } else if i + itemsPerWorker > n {
        arg := arg.(numDelete := i + itemsPerWorker - n);
      } else {
        arg := arg.(numDelete := itemsPerWorker);
      }
      arguments := arguments[counter := arg];
      counter := counter + 1;
      i := i + itemsPerWorker;
    }
    arguments := ClearFrom(arguments, counter);
    r := Split(arguments);
  }

  method ClearFrom(given: seq<Args>, c: nat) returns (arguments: seq<Args>)
    requires c <= |given|
    ensures arguments == given[..c] + seq(|given| - c, j requires 0 <= j < |given| - c => Keep(given[c + j]))
  {
    arguments := given;
    for j := c to |given|
      invariant |arguments| == |given|
      invariant forall k :: 0 <= k < |given| ==> arguments[k] == if c <= k < j then Keep(given[k]) else given[k]
    {
      arguments := arguments[j := arguments[j].(delete := false).(numDelete := 0)];
    }
  }

  /** The whole division, for a run that deletes. */
  method PlanDeletes(args: Args, workers: int) returns (r: Split)
    ensures workers > 0 ==> r == Divide(args, workers)
    ensures workers == 0 ==> r == ZeroDivisionError
  {
    var arguments := SplitLoad(args, workers);
    r := SplitDeletes(args, workers, arguments);
  }

  class DocumentGenerator {
    var startDocument: int
    var numItems: int
    var numDelete: int
    var batchSize: int
    var batches: seq<Batch>

    constructor (args: Args, batchSize: int)
      ensures startDocument == args.startDocument && numItems == args.count && numDelete == args.numDelete
      ensures this.batchSize == batchSize && batches == []
    {
      startDocument, numItems, numDelete := args.startDocument, args.count, args.numDelete;
      this.batchSize, batches := batchSize, [];
    }

    /** False stands for the ValueError of a zero step. */
    method CreateUpsertBatches() returns (ok: bool)
      modifies this`batches
      ensures ok == (batchSize != 0)
      ensures batches == old(batches) + Batches(Upsert, startDocument, startDocument + numItems, batchSize)
    {
      ok := batchSize != 0;
      var i, hi := startDocument, startDocument + numItems;
      while Within(i, hi, batchSize)
        invariant batches + Batches(Upsert, i, hi, batchSize) ==
                  old(batches) + Batches(Upsert, startDocument, hi, batchSize)
        decreases Distance(i, hi, batchSize)
      {
        ghost var before := batches;
        var end := if i + batchSize > hi then hi else i + batchSize;
        batches := batches + [Batch(Upsert, i, end)];
        assert batches + Batches(Upsert, i + batchSize, hi, batchSize) == before + Batches(Upsert, i, hi, batchSize);
        i := i + batchSize;
      }
      assert batches + [] == batches;
    }

    method CreateDeleteBatches() returns (ok: bool)
      modifies this`batches, this`numDelete
      ensures ok == (batchSize != 0)
      ensures numDelete == if numItems < old(numDelete) then numItems else old(numDelete)
      ensures batches == old(batches) + Batches(Delete, startDocument, startDocument + numDelete, batchSize)
    {
      if numItems < numDelete {
        numDelete := numItems;
      }
      ok := batchSize != 0;
      var i, hi := startDocument, startDocument + numDelete;
      while Within(i, hi, batchSize)
        invariant batches + Batches(Delete, i, hi, batchSize) ==
                  old(batches) + Batches(Delete, startDocument, hi, batchSize)
        invariant numDelete == if numItems < old(numDelete) then numItems else old(numDelete)
        decreases Distance(i, hi, batchSize)
      {
        ghost var before := batches;
        var end := if i + batchSize > hi then hi else i + batchSize;
        batches := batches + [Batch(Delete, i, end)];
        assert batches + Batches(Delete, i + batchSize, hi, batchSize) == before + Batches(Delete, i, hi, batchSize);
        i := i + batchSize;
      }
      assert batches + [] == batches;
    }
  }
}
