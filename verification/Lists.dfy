/** The few facts about finite lists that several components share. */
module Lists {
  import opened Wrappers

  function FlatMap<A, B>(f: A -> seq<B>, xs: seq<A>): seq<B> {
    if xs == [] then [] else f(xs[0]) + FlatMap(f, xs[1..])
  }

  lemma {:induction false} FlatMapConcat<A, B>(f: A -> seq<B>, xs: seq<A>, ys: seq<A>)
    ensures FlatMap(f, xs + ys) == FlatMap(f, xs) + FlatMap(f, ys)
  {
    if xs == [] {
      assert xs + ys == ys;
    } else {
      FlatMapConcat(f, xs[1..], ys);
      assert (xs + ys)[1..] == xs[1..] + ys;
      var a, b, c := f(xs[0]), FlatMap(f, xs[1..]), FlatMap(f, ys);
      assert a + (b + c) == (a + b) + c;
    }
  }

  lemma FlatMapOne<A, B>(f: A -> seq<B>, x: A)
    ensures FlatMap(f, [x]) == f(x)
  {
    assert [x][1..] == [];
  }

  /** Taking the head of one list out of a permutation of it leaves a permutation of the tail. */
  lemma TakeOut<T>(a: seq<T>, b: seq<T>) returns (j: nat)
    requires a != [] && multiset(a) == multiset(b)
    ensures j < |b| && b[j] == a[0] && b == b[..j] + ([b[j]] + b[j + 1..])
    ensures multiset(a[1..]) == multiset(b[..j] + b[j + 1..])
  {
    assert a[0] in multiset(b);
    j :| 0 <= j < |b| && b[j] == a[0];
    assert a == [a[0]] + a[1..];
    assert b == b[..j] + ([b[j]] + b[j + 1..]);
    assert multiset(b) == multiset(b[..j] + b[j + 1..]) + multiset{b[j]};
    assert multiset(a) == multiset(a[1..]) + multiset{a[0]};
    assert multiset(a[1..]) == multiset(a) - multiset{a[0]};
  }

  function Map<A, B>(f: A -> B, xs: seq<A>): (ys: seq<B>)
    ensures |ys| == |xs| && forall i :: 0 <= i < |xs| ==> ys[i] == f(xs[i])
  {
    seq(|xs|, i requires 0 <= i < |xs| => f(xs[i]))
  }

  lemma MapHead<A, B>(f: A -> B, xs: seq<A>)
    requires xs != []
    ensures Map(f, xs) == [f(xs[0])] + Map(f, xs[1..]) && Map(f, xs)[1..] == Map(f, xs[1..])
  {
  }

  lemma MapConcat<A, B>(f: A -> B, xs: seq<A>, ys: seq<A>)
    ensures Map(f, xs + ys) == Map(f, xs) + Map(f, ys)
  {
  }

  lemma {:induction false} MapPermute<A, B>(f: A -> B, a: seq<A>, b: seq<A>)
    requires multiset(a) == multiset(b)
    ensures multiset(Map(f, a)) == multiset(Map(f, b))
    decreases |a|
  {
    if a == [] {
      assert |multiset(b)| == 0;
    } else {
      var j := TakeOut(a, b);
      var x, y, z := b[..j], b[j], b[j + 1..];
      MapPermute(f, a[1..], x + z);
      MapHead(f, a);
      MapConcat(f, x, z);
      MapConcat(f, x, [y] + z);
      MapHead(f, [y] + z);
    }
  }

  /** A loop over `xs` that updates `s`. */
  function Fold<S, A>(f: (S, A) -> S, s: S, xs: seq<A>): S
    decreases |xs|
  {
    if xs == [] then s else Fold(f, f(s, xs[0]), xs[1..])
  }

  lemma {:induction false} FoldConcat<S, A>(f: (S, A) -> S, s: S, xs: seq<A>, ys: seq<A>)
    ensures Fold(f, s, xs + ys) == Fold(f, Fold(f, s, xs), ys)
    decreases |xs|
  {
    if xs == [] {
      assert xs + ys == ys;
    } else {
      FoldConcat(f, f(s, xs[0]), xs[1..], ys);
      assert (xs + ys)[1..] == xs[1..] + ys;
    }
  }

  lemma FoldNext<S, A>(f: (S, A) -> S, s: S, xs: seq<A>, i: nat)
    requires i < |xs|
    ensures Fold(f, s, xs[..i + 1]) == f(Fold(f, s, xs[..i]), xs[i])
  {
    assert xs[..i + 1] == xs[..i] + [xs[i]];
    FoldConcat(f, s, xs[..i], [xs[i]]);
    assert [xs[i]][1..] == [];
  }

  lemma {:induction false} FlatMapPermute<A, B>(f: A -> seq<B>, a: seq<A>, b: seq<A>)
    requires multiset(a) == multiset(b)
    ensures multiset(FlatMap(f, a)) == multiset(FlatMap(f, b))
    decreases |a|
  {
    if a == [] {
      assert |multiset(b)| == 0;
    } else {
      var j := TakeOut(a, b);
      var x, y, z := b[..j], b[j], b[j + 1..];
      FlatMapPermute(f, a[1..], x + z);
      FlatMapConcat(f, x, z);
      FlatMapConcat(f, x, [y] + z);
      FlatMapConcat(f, [y], z);
      FlatMapOne(f, y);
    }
  }

  predicate Subsequence<T(==)>(a: seq<T>, b: seq<T>) {
    a == [] || (b != [] && ((a[0] == b[0] && Subsequence(a[1..], b[1..])) || Subsequence(a, b[1..])))
  }

  lemma {:induction false} SubsequenceSelf<T>(a: seq<T>)
    ensures Subsequence(a, a)
    decreases |a|
  {
    if a != [] { SubsequenceSelf(a[1..]); }
  }

  lemma {:induction false} SubsequenceSnoc<T>(a: seq<T>, b: seq<T>, x: T)
    requires Subsequence(a, b)
    ensures Subsequence(a, b + [x]) && Subsequence(a + [x], b + [x])
    decreases |b|
  {
    if b == [] {
      assert a + [x] == [x] == b + [x];
      SubsequenceSelf([x]);
    } else {
      assert (b + [x])[1..] == b[1..] + [x];
      if a == [] {
        SubsequenceSnoc(a, b[1..], x);
      } else if a[0] == b[0] && Subsequence(a[1..], b[1..]) {
        SubsequenceSnoc(a[1..], b[1..], x);
        assert (a + [x])[1..] == a[1..] + [x];
      } else {
        SubsequenceSnoc(a, b[1..], x);
      }
    }
  }

  lemma {:induction false} SubsequenceTail<T>(a: seq<T>, b: seq<T>)
    requires Subsequence(a, b) && a != []
    ensures Subsequence(a[1..], b)
    decreases |b|
  {
    if !(a[0] == b[0] && Subsequence(a[1..], b[1..])) {
      SubsequenceTail(a, b[1..]);
    }
  }

  lemma {:induction false} SubsequenceRemove<T>(a: seq<T>, b: seq<T>, i: nat)
    requires Subsequence(a, b) && i < |a|
    ensures Subsequence(a[..i] + a[i + 1..], b)
    decreases |b|
  {
    var r := a[..i] + a[i + 1..];
    if i == 0 {
      assert r == a[1..];
      SubsequenceTail(a, b);
    } else if a[0] == b[0] && Subsequence(a[1..], b[1..]) {
      SubsequenceRemove(a[1..], b[1..], i - 1);
      assert r[1..] == a[1..][..i - 1] + a[1..][i..];
    } else {
      SubsequenceRemove(a, b[1..], i);
    }
  }

  lemma RemoveOne<T>(a: seq<T>, i: nat)
    requires i < |a|
    ensures multiset(a[..i] + a[i + 1..]) + multiset{a[i]} == multiset(a)
  {
    assert a == a[..i] + [a[i]] + a[i + 1..];
  }

  lemma AddOne<T>(ts: multiset<T>, x: T, a: multiset<T>, b: multiset<T>)
    requires ts == a + b
    ensures ts + multiset{x} == (a + multiset{x}) + b
  {
  }

  ghost predicate Distinct<T(!new)>(s: seq<T>) {
    forall i, j :: 0 <= i < j < |s| ==> s[i] != s[j]
  }

  lemma DistinctPart<T(!new)>(part: seq<T>, whole: seq<T>)
    requires Distinct(whole) && multiset(part) <= multiset(whole)
    ensures Distinct(part)
  {
    forall i, j | 0 <= i < j < |part| ensures part[i] != part[j] {
      OnceInMultiset(whole, part[i]);
      if part[i] == part[j] { TwiceInMultiset(part, i, j); }
    }
  }

  lemma TwiceInMultiset<T>(s: seq<T>, i: nat, j: nat)
    requires i < j < |s| && s[i] == s[j]
    ensures multiset(s)[s[i]] >= 2
  {
    assert s == s[..j] + s[j..];
    assert s[i] in s[..j] && s[i] in s[j..];
  }

  lemma {:induction false} OnceInMultiset<T(!new)>(s: seq<T>, x: T)
    requires Distinct(s)
    ensures multiset(s)[x] <= 1
    decreases |s|
  {
    if s != [] {
      assert s == [s[0]] + s[1..];
      OnceInMultiset(s[1..], x);
    }
  }

  /** A result so far in front of the rest of it, if there is any. */
  function Prepend<T>(xs: seq<T>, rest: Option<seq<T>>): Option<seq<T>> {
    if rest.Some? then Some(xs + rest.value) else None
  }

  lemma PrependTwice<T>(a: seq<T>, b: seq<T>, rest: Option<seq<T>>)
    ensures Prepend(a, Prepend(b, rest)) == Prepend(a + b, rest)
  {
    if rest.Some? {
      assert a + (b + rest.value) == (a + b) + rest.value;
    }
  }

  lemma {:induction false} FlatMapAgree<A, B>(f: A -> seq<B>, g: A -> seq<B>, xs: seq<A>)
    requires forall i :: 0 <= i < |xs| ==> f(xs[i]) == g(xs[i])
    ensures FlatMap(f, xs) == FlatMap(g, xs)
    decreases |xs|
  {
    if xs != [] {
      FlatMapAgree(f, g, xs[1..]);
    }
  }

  /** Replacing one element changes only what comes of it. */
  lemma FlatMapUpdate<A, B>(f: A -> seq<B>, xs: seq<A>, i: nat, y: A)
    requires i < |xs|
    ensures FlatMap(f, xs) == FlatMap(f, xs[..i]) + (f(xs[i]) + FlatMap(f, xs[i + 1..]))
    ensures FlatMap(f, xs[i := y]) == FlatMap(f, xs[..i]) + (f(y) + FlatMap(f, xs[i + 1..]))
  {
    var a, b := xs[..i], xs[i + 1..];
    assert xs == a + ([xs[i]] + b) && xs[i := y] == a + ([y] + b);
    forall z ensures FlatMap(f, a + ([z] + b)) == FlatMap(f, a) + (f(z) + FlatMap(f, b)) {
      FlatMapConcat(f, a, [z] + b);
      FlatMapConcat(f, [z], b);
      FlatMapOne(f, z);
    }
  }
}
