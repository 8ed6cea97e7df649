/** `sorted`, on anything with a total order, and the orders of characters and strings. */
module Sorting {

  ghost predicate TotalOrder<T(!new)>(le: (T, T) -> bool) {
    && (forall x, y :: le(x, y) || le(y, x))
    && (forall x, y :: le(x, y) && le(y, x) ==> x == y)
    && (forall x, y, z :: le(x, y) && le(y, z) ==> le(x, z))
  }

  function Insert<T>(le: (T, T) -> bool, x: T, s: seq<T>): seq<T> {
    if s == [] || le(x, s[0]) then [x] + s else [s[0]] + Insert(le, x, s[1..])
  }

  function Sort<T>(le: (T, T) -> bool, s: seq<T>): seq<T> {
    if s == [] then [] else Insert(le, s[0], Sort(le, s[1..]))
  }

  ghost predicate Sorted<T(!new)>(le: (T, T) -> bool, s: seq<T>) {
    forall i, j :: 0 <= i < j < |s| ==> le(s[i], s[j])
  }

  lemma {:induction false} InsertSorted<T(!new)>(le: (T, T) -> bool, x: T, s: seq<T>)
    requires TotalOrder(le) && Sorted(le, s)
    ensures Sorted(le, Insert(le, x, s)) && multiset(Insert(le, x, s)) == multiset{x} + multiset(s)
    decreases |s|
  {
    if s != [] {
      assert s == [s[0]] + s[1..];
      if !le(x, s[0]) {
        InsertSorted(le, x, s[1..]);
        var r := Insert(le, x, s[1..]);
        forall j | 0 <= j < |r| ensures le(s[0], r[j]) {
          assert r[j] in multiset(r);
          if r[j] != x {
            assert r[j] in s[1..];
          }
        }
      }
    }
  }

  lemma {:induction false} SortSorted<T(!new)>(le: (T, T) -> bool, s: seq<T>)
    requires TotalOrder(le)
    ensures Sorted(le, Sort(le, s)) && multiset(Sort(le, s)) == multiset(s)
    decreases |s|
  {
    if s != [] {
      assert s == [s[0]] + s[1..];
      SortSorted(le, s[1..]);
      InsertSorted(le, s[0], Sort(le, s[1..]));
    }
  }

  lemma SortedLeast<T(!new)>(le: (T, T) -> bool, a: seq<T>, x: T)
    requires TotalOrder(le) && Sorted(le, a) && x in a
    ensures le(a[0], x)
  {
    var i :| 0 <= i < |a| && a[i] == x;
    assert le(x, x);
  }

  lemma TailMultiset<T>(a: seq<T>, b: seq<T>)
    requires multiset(a) == multiset(b) && a != [] && b != [] && a[0] == b[0]
    ensures multiset(a[1..]) == multiset(b[1..])
  {
    assert a == [a[0]] + a[1..] && b == [b[0]] + b[1..];
    assert multiset(a[1..]) == multiset(a) - multiset{a[0]};
    assert multiset(b[1..]) == multiset(b) - multiset{b[0]};
  }

  lemma {:induction false} SortedUnique<T(!new)>(le: (T, T) -> bool, a: seq<T>, b: seq<T>)
    requires TotalOrder(le) && Sorted(le, a) && Sorted(le, b) && multiset(a) == multiset(b)
    ensures a == b
    decreases |a|
  {
    if a == [] || b == [] {
      assert |multiset(a)| == |multiset(b)|;
    } else {
      assert a[0] in multiset(b) && b[0] in multiset(a);
      SortedLeast(le, a, b[0]);
      SortedLeast(le, b, a[0]);
      TailMultiset(a, b);
      SortedUnique(le, a[1..], b[1..]);
      assert a == [a[0]] + a[1..] && b == [b[0]] + b[1..];
    }
  }

  /** Lists sort to the same list if and only if they are permutations of each other. */
  lemma SortEqual<T(!new)>(le: (T, T) -> bool, a: seq<T>, b: seq<T>)
    requires TotalOrder(le)
    ensures Sort(le, a) == Sort(le, b) <==> multiset(a) == multiset(b)
  {
    SortSorted(le, a);
    SortSorted(le, b);
    if multiset(a) == multiset(b) {
      SortedUnique(le, Sort(le, a), Sort(le, b));
    }
  }

  // ---------- Characters and strings ----------

  predicate CharLe(a: char, b: char) {
    a <= b
  }

  /** Strings are compared character by character. */
  predicate StringLe(a: string, b: string) {
    a == [] || (b != [] && (a[0] < b[0] || (a[0] == b[0] && StringLe(a[1..], b[1..]))))
  }

  lemma {:induction false} StringLeTotal(a: string, b: string)
    ensures StringLe(a, b) || StringLe(b, a)
    ensures StringLe(a, b) && StringLe(b, a) ==> a == b
    decreases |a|
  {
    if a != [] && b != [] && a[0] == b[0] {
      StringLeTotal(a[1..], b[1..]);
      assert a == [a[0]] + a[1..] && b == [b[0]] + b[1..];
    }
  }

  lemma {:induction false} StringLeTransitive(a: string, b: string, c: string)
    requires StringLe(a, b) && StringLe(b, c)
    ensures StringLe(a, c)
    decreases |a|
  {
    if a != [] && a[0] == b[0] == c[0] {
      StringLeTransitive(a[1..], b[1..], c[1..]);
    }
  }

  lemma StringOrder()
    ensures TotalOrder(StringLe)
  {
    forall x, y ensures (StringLe(x, y) || StringLe(y, x)) && (StringLe(x, y) && StringLe(y, x) ==> x == y) {
      StringLeTotal(x, y);
    }
    forall x, y, z | StringLe(x, y) && StringLe(y, z) ensures StringLe(x, z) {
      StringLeTransitive(x, y, z);
    }
  }

  lemma CharOrder()
    ensures TotalOrder(CharLe)
  {
  }
}
