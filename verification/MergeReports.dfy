/**
 Merging of test reports (scripts/merge_reports.py): test cases whose filtered names are equal up to the
 order of their parameters become one entry, which keeps the first such name and the last such result.
 */
module MergeReports {
  import opened Wrappers
  import Strings
  import Sorting
  import Filtering
  import Lists
  import Xunit

  // ---------- When two names are the same test ----------

  /** What `compare_with_sort` compares. */
  function Canon(name: string): string {
    var words := Strings.Split(name, ',');
    words[0] + [','] + Strings.Join(Sorting.Sort(Sorting.StringLe, words[1..]), ',')
  }

  /** A name without parameters cannot be told from one with a single empty parameter. */
  function Params(words: seq<string>): seq<string> {
    if words == [[]] then [] else words
  }

  /** Equal first words, and equal parameters up to order. */
  predicate SameTest(a: string, b: string) {
    var p, q := Strings.Split(a, ','), Strings.Split(b, ',');
    p[0] == q[0] && multiset(Params(p[1..])) == multiset(Params(q[1..]))
  }

  ghost predicate NoCommas(words: seq<string>) {
    forall w :: w in words ==> ',' !in w
  }

  lemma JoinEqual(xs: seq<string>, ys: seq<string>)
    requires NoCommas(xs) && NoCommas(ys)
    ensures Strings.Join(xs, ',') == Strings.Join(ys, ',') <==> Params(xs) == Params(ys)
  {
    if xs != [] { Strings.SplitJoin(xs, ','); }
    if ys != [] { Strings.SplitJoin(ys, ','); }
  }

  lemma HeadEqual(a: string, b: string, x: string, y: string)
    requires ',' !in a && ',' !in b
    ensures a + [','] + x == b + [','] + y <==> a == b && x == y
  {
    if a + [','] + x == b + [','] + y {
      Strings.SplitAt(a, x, ',');
      Strings.SplitAt(b, y, ',');
      assert ([a] + Strings.Split(x, ','))[0] == ([b] + Strings.Split(y, ','))[0];
      var n := |a| + 1;
      assert (a + [','] + x)[n..] == x && (b + [','] + y)[n..] == y;
    }
  }

  lemma SortParams(xs: seq<string>)
    ensures multiset(Params(Sorting.Sort(Sorting.StringLe, xs))) == multiset(Params(xs))
  {
    Sorting.StringOrder();
    Sorting.SortSorted(Sorting.StringLe, xs);
    SingleSort(xs);
  }

  lemma SingleSort(zs: seq<string>)
    requires multiset(Sorting.Sort(Sorting.StringLe, zs)) == multiset(zs)
    ensures Sorting.Sort(Sorting.StringLe, zs) == [[]] <==> zs == [[]]
  {
    var s := Sorting.Sort(Sorting.StringLe, zs);
    assert |multiset(s)| == |multiset(zs)|;
    if |zs| == 1 {
      assert zs[0] in multiset(s) && s[0] in multiset(zs);
    }
  }

  /** The comparison by sorted text is exactly equality up to parameter order. */
  lemma CanonIff(a: string, b: string)
    ensures Canon(a) == Canon(b) <==> SameTest(a, b)
  {
    var p, q := Strings.Split(a, ','), Strings.Split(b, ',');
    var x, y := Sorting.Sort(Sorting.StringLe, p[1..]), Sorting.Sort(Sorting.StringLe, q[1..]);
    Strings.SplitParts(a, ',');
    Strings.SplitParts(b, ',');
    assert p[0] in p && q[0] in q;
    SortedNoCommas(p[1..]);
    SortedNoCommas(q[1..]);
    HeadEqual(p[0], q[0], Strings.Join(x, ','), Strings.Join(y, ','));
    JoinEqual(x, y);
    SortParams(p[1..]);
    SortParams(q[1..]);
    if multiset(Params(p[1..])) == multiset(Params(q[1..])) {
      SortedParams(p[1..], q[1..]);
    }
  }

  lemma SortedNoCommas(xs: seq<string>)
    requires NoCommas(xs)
    ensures NoCommas(Sorting.Sort(Sorting.StringLe, xs))
  {
    Sorting.StringOrder();
    Sorting.SortSorted(Sorting.StringLe, xs);
    var s := Sorting.Sort(Sorting.StringLe, xs);
    forall w | w in s ensures ',' !in w {
      assert w in multiset(s);
    }
  }

  lemma SortedParams(xs: seq<string>, ys: seq<string>)
    requires multiset(Params(xs)) == multiset(Params(ys))
    ensures Params(Sorting.Sort(Sorting.StringLe, xs)) == Params(Sorting.Sort(Sorting.StringLe, ys))
  {
    Sorting.StringOrder();
    var le := Sorting.StringLe;
    Sorting.SortSorted(le, xs);
    Sorting.SortSorted(le, ys);
    SingleSort(xs);
    SingleSort(ys);
    assert |multiset(Params(xs))| == |multiset(Params(ys))|;
    if xs != [[]] && ys != [[]] {
      Sorting.SortEqual(le, xs, ys);
    }
  }

  // ---------- Grouping, whatever is being grouped ----------

  ghost predicate Equivalence<K(!new)>(same: (K, K) -> bool) {
    && (forall x :: same(x, x))
    && (forall x, y :: same(x, y) ==> same(y, x))
    && (forall x, y, z :: same(x, y) && same(y, z) ==> same(x, z))
  }

  function IndexOf<K, C>(same: (K, K) -> bool, tests: seq<(K, C)>, k: K): (r: Option<nat>)
    ensures r.Some? ==> r.value < |tests| && same(tests[r.value].0, k)
    ensures r.Some? ==> forall j :: 0 <= j < r.value ==> !same(tests[j].0, k)
    ensures r.None? ==> forall j :: 0 <= j < |tests| ==> !same(tests[j].0, k)
  {
    if tests == [] then None
    else if same(tests[0].0, k) then Some(0)
    else
      var r := IndexOf(same, tests[1..], k);
      if r.None? then None else Some(r.value + 1)
  }

  /** One case: it replaces the contents of the entry of its class, or begins a new entry. */
  function MergeOne<K, C>(same: (K, K) -> bool, tests: seq<(K, C)>, k: K, c: C): seq<(K, C)> {
    var r := IndexOf(same, tests, k);
    if r.Some? then tests[r.value := (tests[r.value].0, c)] else tests + [(k, c)]
  }

  function MergeAll<K, C>(same: (K, K) -> bool, tests: seq<(K, C)>, cases: seq<(K, C)>): seq<(K, C)>
    decreases |cases|
  {
    if cases == [] then tests
    else MergeAll(same, MergeOne(same, tests, cases[0].0, cases[0].1), cases[1..])
  }

  ghost predicate IsFirst<K(!new), C(!new)>(same: (K, K) -> bool, cases: seq<(K, C)>, f: nat, k: K) {
    f < |cases| && same(cases[f].0, k) && forall m :: 0 <= m < f ==> !same(cases[m].0, k)
  }

  ghost predicate IsLast<K(!new), C(!new)>(same: (K, K) -> bool, cases: seq<(K, C)>, l: nat, k: K) {
    l < |cases| && same(cases[l].0, k) && forall m :: l < m < |cases| ==> !same(cases[m].0, k)
  }

  /** An entry has the key of the first case of its class and the contents of the last. */
  ghost predicate Describes<K(!new), C(!new)>(same: (K, K) -> bool, cases: seq<(K, C)>, e: (K, C)) {
    && (exists f: nat :: IsFirst(same, cases, f, e.0) && cases[f].0 == e.0)
    && (exists l: nat :: IsLast(same, cases, l, e.0) && cases[l].1 == e.1)
  }

  ghost predicate Covered<K(!new), C(!new)>(same: (K, K) -> bool, tests: seq<(K, C)>, k: K) {
    exists i :: 0 <= i < |tests| && same(tests[i].0, k)
  }

  ghost predicate Apart<K(!new), C(!new)>(same: (K, K) -> bool, tests: seq<(K, C)>) {
    forall i, j :: 0 <= i < j < |tests| ==> !same(tests[i].0, tests[j].0)
  }

  /** Exactly one entry for each class of cases, and each entry right. */
  ghost predicate Groups<K(!new), C(!new)>(same: (K, K) -> bool, cases: seq<(K, C)>, tests: seq<(K, C)>) {
    && Apart(same, tests)
    && (forall n :: 0 <= n < |cases| ==> Covered(same, tests, cases[n].0))
    && (forall i :: 0 <= i < |tests| ==> Describes(same, cases, tests[i]))
  }

  lemma DescribesOther<K(!new), C(!new)>(same: (K, K) -> bool, cases: seq<(K, C)>, e: (K, C), c: (K, C))
    requires Equivalence(same) && Describes(same, cases, e) && !same(e.0, c.0)
    ensures Describes(same, cases + [c], e)
  {
    var f: nat :| IsFirst(same, cases, f, e.0) && cases[f].0 == e.0;
    var l: nat :| IsLast(same, cases, l, e.0) && cases[l].1 == e.1;
    var more := cases + [c];
    assert IsFirst(same, more, f, e.0) && more[f].0 == e.0;
    assert IsLast(same, more, l, e.0) && more[l].1 == e.1;
  }

  lemma DescribesSame<K(!new), C(!new)>(same: (K, K) -> bool, cases: seq<(K, C)>, e: (K, C), c: (K, C))
    requires Equivalence(same) && Describes(same, cases, e) && same(e.0, c.0)
    ensures Describes(same, cases + [c], (e.0, c.1))
  {
    var f: nat :| IsFirst(same, cases, f, e.0) && cases[f].0 == e.0;
    var more := cases + [c];
    assert IsFirst(same, more, f, e.0) && more[f].0 == e.0;
    assert IsLast(same, more, |cases|, e.0) && more[|cases|].1 == c.1;
  }

  lemma DescribesNew<K(!new), C(!new)>(same: (K, K) -> bool, cases: seq<(K, C)>, c: (K, C))
    requires Equivalence(same) && forall n :: 0 <= n < |cases| ==> !same(cases[n].0, c.0)
    ensures Describes(same, cases + [c], c)
  {
    var more := cases + [c];
    assert IsFirst(same, more, |cases|, c.0) && more[|cases|].0 == c.0;
    assert IsLast(same, more, |cases|, c.0) && more[|cases|].1 == c.1;
  }

  lemma MergeOneApart<K(!new), C(!new)>(same: (K, K) -> bool, tests: seq<(K, C)>, c: (K, C))
    requires Apart(same, tests)
    ensures Apart(same, MergeOne(same, tests, c.0, c.1))
  {
  }

  lemma MergeOneCovers<K(!new), C(!new)>(same: (K, K) -> bool, tests: seq<(K, C)>, c: (K, C), k: K)
    requires Equivalence(same) && (Covered(same, tests, k) || k == c.0)
    ensures Covered(same, MergeOne(same, tests, c.0, c.1), k)
  {
    var r, out := IndexOf(same, tests, c.0), MergeOne(same, tests, c.0, c.1);
    if Covered(same, tests, k) {
      var i :| 0 <= i < |tests| && same(tests[i].0, k);
      assert out[i].0 == tests[i].0;
    } else {
      assert r.None?;
      assert same(out[|tests|].0, k);
    }
  }

  lemma NoneSame<K(!new), C(!new)>(same: (K, K) -> bool, cases: seq<(K, C)>, tests: seq<(K, C)>, k: K)
    requires Equivalence(same) && forall n :: 0 <= n < |cases| ==> Covered(same, tests, cases[n].0)
    requires forall j :: 0 <= j < |tests| ==> !same(tests[j].0, k)
    ensures forall n :: 0 <= n < |cases| ==> !same(cases[n].0, k)
  {
    forall n | 0 <= n < |cases| ensures !same(cases[n].0, k) {
      var i :| 0 <= i < |tests| && same(tests[i].0, cases[n].0);
    }
  }

  lemma MergeOneDescribes<K(!new), C(!new)>(same: (K, K) -> bool, cases: seq<(K, C)>, tests: seq<(K, C)>,
                                            c: (K, C), i: nat)
    requires Equivalence(same) && Apart(same, tests) && i < |MergeOne(same, tests, c.0, c.1)|
    requires i < |tests| ==> Describes(same, cases, tests[i])
    requires forall n :: 0 <= n < |cases| ==> Covered(same, tests, cases[n].0)
    ensures Describes(same, cases + [c], MergeOne(same, tests, c.0, c.1)[i])
  {
    var r := IndexOf(same, tests, c.0);
    if r.Some? && i == r.value {
      DescribesSame(same, cases, tests[i], c);
    } else if i < |tests| {
      if r.Some? && same(tests[i].0, c.0) { Linked(same, tests[i].0, tests[r.value].0, c.0); }
      DescribesOther(same, cases, tests[i], c);
    } else {
      NoneSame(same, cases, tests, c.0);
      DescribesNew(same, cases, c);
    }
  }

  lemma MergeOneGroups<K(!new), C(!new)>(same: (K, K) -> bool, cases: seq<(K, C)>, tests: seq<(K, C)>, c: (K, C))
    requires Equivalence(same) && Groups(same, cases, tests)
    ensures Groups(same, cases + [c], MergeOne(same, tests, c.0, c.1))
  {
    var more, out := cases + [c], MergeOne(same, tests, c.0, c.1);
    MergeOneApart(same, tests, c);
    forall n | 0 <= n < |more| ensures Covered(same, out, more[n].0) {
      MergeOneCovers(same, tests, c, more[n].0);
    }
    forall i | 0 <= i < |out| ensures Describes(same, more, out[i]) {
      MergeOneDescribes(same, cases, tests, c, i);
    }
  }

  lemma Linked<K(!new)>(same: (K, K) -> bool, x: K, y: K, z: K)
    requires Equivalence(same) && same(x, z) && same(y, z)
    ensures same(x, y) && same(y, x)
  {
  }

  lemma Reassociate<T>(before: seq<T>, cases: seq<T>)
    requires cases != []
    ensures before + [cases[0]] + cases[1..] == before + cases
  {
  }

  lemma {:induction false} MergeAllGroups<K(!new), C(!new)>(same: (K, K) -> bool, before: seq<(K, C)>,
                                                            tests: seq<(K, C)>, cases: seq<(K, C)>)
    requires Equivalence(same) && Groups(same, before, tests)
    ensures Groups(same, before + cases, MergeAll(same, tests, cases))
    decreases |cases|
  {
    if cases == [] {
      assert before + cases == before;
    } else {
      var c, rest := cases[0], cases[1..];
      MergeOneGroups(same, before, tests, c);
      MergeAllGroups(same, before + [c], MergeOne(same, tests, c.0, c.1), rest);
      Reassociate(before, cases);
    }
  }

  lemma MergeGroups<K(!new), C(!new)>(same: (K, K) -> bool, cases: seq<(K, C)>)
    requires Equivalence(same)
    ensures Groups(same, cases, MergeAll(same, [], cases))
  {
    var none: seq<(K, C)> := [];
    assert Groups(same, none, none);
    MergeAllGroups(same, none, none, cases);
    assert none + cases == cases;
  }

  lemma {:induction false} MergeAllConcat<K, C>(same: (K, K) -> bool, tests: seq<(K, C)>,
                                                a: seq<(K, C)>, b: seq<(K, C)>)
    ensures MergeAll(same, tests, a + b) == MergeAll(same, MergeAll(same, tests, a), b)
    decreases |a|
  {
    if a == [] {
      assert a + b == b;
    } else {
      assert (a + b)[1..] == a[1..] + b;
      MergeAllConcat(same, MergeOne(same, tests, a[0].0, a[0].1), a[1..], b);
    }
  }

  // ---------- The last case of each class ----------

  predicate SomeSame<K, C>(same: (K, K) -> bool, cases: seq<(K, C)>, k: K) {
    exists m :: 0 <= m < |cases| && same(cases[m].0, k)
  }

  /** The cases that no later case is the same as, in order. */
  function Lasts<K, C>(same: (K, K) -> bool, cases: seq<(K, C)>): seq<(K, C)> {
    if cases == [] then []
    else (if SomeSame(same, cases[1..], cases[0].0) then [] else [cases[0]]) + Lasts(same, cases[1..])
  }

  /** The contents of an entry, unless some case replaces them. */
  function Untouched<K, C>(same: (K, K) -> bool, cases: seq<(K, C)>): ((K, C)) -> seq<C> {
    (e: (K, C)) => if SomeSame(same, cases, e.0) then [] else [e.1]
  }

  function Content<K, C>(e: (K, C)): C {
    e.1
  }

  function Contents<K, C>(tests: seq<(K, C)>): seq<C> {
    Lists.Map(Content, tests)
  }

  lemma SomeSameCons<K(!new), C(!new)>(same: (K, K) -> bool, cases: seq<(K, C)>, k: K)
    requires cases != []
    ensures SomeSame(same, cases, k) <==> same(cases[0].0, k) || SomeSame(same, cases[1..], k)
  {
    if SomeSame(same, cases[1..], k) {
      var m :| 0 <= m < |cases[1..]| && same(cases[1..][m].0, k);
      assert same(cases[m + 1].0, k);
    }
    if SomeSame(same, cases, k) && !same(cases[0].0, k) {
      var m :| 0 <= m < |cases| && same(cases[m].0, k);
      assert same(cases[1..][m - 1].0, k);
    }
  }

  lemma SomeSameClass<K(!new), C(!new)>(same: (K, K) -> bool, cases: seq<(K, C)>, k: K, k': K)
    requires Equivalence(same) && same(k, k')
    ensures SomeSame(same, cases, k) <==> SomeSame(same, cases, k')
  {
    if SomeSame(same, cases, k) {
      var m :| 0 <= m < |cases| && same(cases[m].0, k);
      assert same(cases[m].0, k');
    }
    if SomeSame(same, cases, k') {
      var m :| 0 <= m < |cases| && same(cases[m].0, k');
      assert same(cases[m].0, k);
    }
  }

  /** Entries of other classes than the first case's are replaced by the other cases or not at all. */
  lemma UntouchedElsewhere<K(!new), C(!new)>(same: (K, K) -> bool, tests: seq<(K, C)>, cases: seq<(K, C)>)
    requires cases != [] && forall i :: 0 <= i < |tests| ==> !same(cases[0].0, tests[i].0)
    ensures Lists.FlatMap(Untouched(same, cases), tests) == Lists.FlatMap(Untouched(same, cases[1..]), tests)
  {
    var f, g := Untouched(same, cases), Untouched(same, cases[1..]);
    forall i | 0 <= i < |tests| ensures f(tests[i]) == g(tests[i]) {
      SomeSameCons(same, cases, tests[i].0);
    }
    Lists.FlatMapAgree(f, g, tests);
  }

  /** What the first of the cases leaves to the others. */
  function Fresh<K, C>(same: (K, K) -> bool, cases: seq<(K, C)>): seq<C>
    requires cases != []
  {
    if SomeSame(same, cases[1..], cases[0].0) then [] else [cases[0].1]
  }

  lemma UntouchedMatch<K(!new), C(!new)>(same: (K, K) -> bool, tests: seq<(K, C)>, cases: seq<(K, C)>, i: nat)
    requires Equivalence(same) && Apart(same, tests) && cases != [] && i < |tests| && same(tests[i].0, cases[0].0)
    ensures var out := tests[i := (tests[i].0, cases[0].1)];
            multiset(Lists.FlatMap(Untouched(same, cases[1..]), out)) ==
            multiset(Lists.FlatMap(Untouched(same, cases), tests)) + multiset(Fresh(same, cases))
  {
    var c, rest, e := cases[0], cases[1..], tests[i];
    var f, g := Untouched(same, cases), Untouched(same, rest);
    var x, y, z := Lists.FlatMap(g, tests[..i]), Lists.FlatMap(g, tests[i + 1..]), Fresh(same, cases);
    assert Lists.FlatMap(f, tests) == x + ([] + y) by {
      MatchElsewhere(same, tests, cases, i);
      SomeSameCons(same, cases, e.0);
      Lists.FlatMapUpdate(f, tests, i, e);
    }
    assert Lists.FlatMap(g, tests[i := (e.0, c.1)]) == x + (z + y) by {
      SomeSameClass(same, rest, e.0, c.0);
      Lists.FlatMapUpdate(g, tests, i, (e.0, c.1));
    }
    assert multiset(x + (z + y)) == multiset(x + ([] + y)) + multiset(z);
  }

  lemma MatchElsewhere<K(!new), C(!new)>(same: (K, K) -> bool, tests: seq<(K, C)>, cases: seq<(K, C)>, i: nat)
    requires Equivalence(same) && Apart(same, tests) && cases != [] && i < |tests| && same(tests[i].0, cases[0].0)
    ensures var f, g := Untouched(same, cases), Untouched(same, cases[1..]);
            && Lists.FlatMap(f, tests[..i]) == Lists.FlatMap(g, tests[..i])
            && Lists.FlatMap(f, tests[i + 1..]) == Lists.FlatMap(g, tests[i + 1..])
  {
    forall j | 0 <= j < |tests| && j != i ensures !same(cases[0].0, tests[j].0) {
      if same(cases[0].0, tests[j].0) { Linked(same, tests[j].0, tests[i].0, cases[0].0); }
    }
    UntouchedElsewhere(same, tests[..i], cases);
    UntouchedElsewhere(same, tests[i + 1..], cases);
  }

  lemma UntouchedNew<K(!new), C(!new)>(same: (K, K) -> bool, tests: seq<(K, C)>, cases: seq<(K, C)>)
    requires Equivalence(same) && cases != [] && forall j :: 0 <= j < |tests| ==> !same(tests[j].0, cases[0].0)
    ensures multiset(Lists.FlatMap(Untouched(same, cases[1..]), tests + [cases[0]])) ==
            multiset(Lists.FlatMap(Untouched(same, cases), tests)) + multiset(Fresh(same, cases))
  {
    var g := Untouched(same, cases[1..]);
    Lists.FlatMapConcat(g, tests, [cases[0]]);
    Lists.FlatMapOne(g, cases[0]);
    UntouchedElsewhere(same, tests, cases);
  }

  /** Merging leaves the contents that no case replaces, and those of the last case of each class. */
  lemma {:induction false} MergeAllContents<K(!new), C(!new)>(same: (K, K) -> bool, tests: seq<(K, C)>,
                                                              cases: seq<(K, C)>)
    requires Equivalence(same) && Apart(same, tests)
    ensures multiset(Contents(MergeAll(same, tests, cases))) ==
            multiset(Lists.FlatMap(Untouched(same, cases), tests)) + multiset(Contents(Lasts(same, cases)))
    decreases |cases|
  {
    if cases == [] {
      UntouchedAll(same, tests, cases);
    } else {
      var c, rest := cases[0], cases[1..];
      var out := MergeOne(same, tests, c.0, c.1);
      MergeOneApart(same, tests, c);
      MergeAllContents(same, out, rest);
      var r := IndexOf(same, tests, c.0);
      if r.Some? {
        UntouchedMatch(same, tests, cases, r.value);
      } else {
        UntouchedNew(same, tests, cases);
      }
      LastsContents(same, cases);
    }
  }

  lemma LastsContents<K(!new), C(!new)>(same: (K, K) -> bool, cases: seq<(K, C)>)
    requires cases != []
    ensures multiset(Contents(Lasts(same, cases))) ==
            multiset(Fresh(same, cases)) + multiset(Contents(Lasts(same, cases[1..])))
  {
    var more := Lasts(same, cases[1..]);
    assert Contents(Lasts(same, cases)) == Fresh(same, cases) + Contents(more);
  }

  lemma {:induction false} UntouchedAll<K(!new), C(!new)>(same: (K, K) -> bool, tests: seq<(K, C)>, cases: seq<(K, C)>)
    requires cases == []
    ensures Lists.FlatMap(Untouched(same, cases), tests) == Contents(tests)
    decreases |tests|
  {
    if tests != [] {
      UntouchedAll(same, tests[1..], cases);
      Lists.MapHead(Content, tests);
    }
  }

  /** From nothing: exactly the contents of the last case of each class. */
  lemma MergedContents<K(!new), C(!new)>(same: (K, K) -> bool, cases: seq<(K, C)>)
    requires Equivalence(same)
    ensures multiset(Contents(MergeAll(same, [], cases))) == multiset(Contents(Lasts(same, cases)))
  {
    MergeAllContents(same, [], cases);
  }

  // ---------- The reports ----------

  datatype Case = Case(name: string, time: real, error: string)

  type Entry = (string, Case)

  /** A testsuite element of some report, with its test cases. */
  datatype Report = Report(suite: string, cases: seq<Case>)

  function FirstPart(param: string): string {
    Strings.Split(param, '=')[0]
  }

  /** The names of the run's own parameters, which are taken out as well. */
  function RunFilters(runParams: string): seq<string> {
    Lists.Map(FirstPart, Strings.Split(runParams, ','))
  }

  function LogsDrop(runParams: string): seq<string> {
    ["logs_folder", "conf_file", "cluster_name:", "ini:", "case_number:", "num_nodes:", "spec:", "is_container:"]
    + RunFilters(runParams)
  }

  function PlainDrop(runParams: string): seq<string> {
    ["logs_folder=", "conf_file=", "cluster_name=", "ini=", "case_number=", "num_nodes=", "spec=", "is_container="]
    + RunFilters(runParams)
  }

  function FilteredName(runParams: string, name: string): string {
    var f := Filtering.Filtered(name, LogsDrop(runParams), PlainDrop(runParams));
    if Filtering.Contains(name, Filtering.MARKER) then Filtering.RStripCommas(f) else f
  }

  function Filter(runParams: string): string -> string {
    name => FilteredName(runParams, name)
  }

  function Keyed(filter: string -> string, cases: seq<Case>): seq<Entry> {
    Lists.Map((c: Case) => (filter(c.name), c), cases)
  }

  /** The cases of all reports of one suite, in order. */
  function CasesOf(reports: seq<Report>, suite: string): seq<Case> {
    if reports == [] then []
    else
      var last := |reports| - 1;
      CasesOf(reports[..last], suite) + if reports[last].suite == suite then reports[last].cases else []
  }

  function Merged(filter: string -> string, cases: seq<Case>): seq<Entry> {
    MergeAll(SameTest, [], Keyed(filter, cases))
  }

  lemma SameTestEquivalence()
    ensures Equivalence(SameTest)
  {
  }

  /** For every sequence of cases: one entry per class of filtered names equal up to parameter order, under the
      first such name, with the name, time and error of the last. */
  lemma MergedGroups(filter: string -> string, cases: seq<Case>)
    ensures Groups(SameTest, Keyed(filter, cases), Merged(filter, cases))
  {
    SameTestEquivalence();
    MergeGroups(SameTest, Keyed(filter, cases));
  }

  lemma MergedSnoc(filter: string -> string, cases: seq<Case>, c: Case)
    ensures Merged(filter, cases + [c]) == MergeOne(SameTest, Merged(filter, cases), filter(c.name), c)
  {
    var k: seq<Entry> := [(filter(c.name), c)];
    assert Keyed(filter, cases + [c]) == Keyed(filter, cases) + k;
    MergeAllConcat(SameTest, [], Keyed(filter, cases), k);
    assert k[1..] == [];
  }

  /** The search of `compare_with_sort` through the keys collected so far. */
  method CompareWithSort(tests: seq<Entry>, key: string) returns (found: Option<nat>)
    ensures found == IndexOf(SameTest, tests, key)
  {
    var words := Strings.Split(key, ',');
    var canon := words[0] + [','] + Strings.Join(Sorting.Sort(Sorting.StringLe, words[1..]), ',');
    for i := 0 to |tests|
      invariant forall j :: 0 <= j < i ==> !SameTest(tests[j].0, key)
    {
      CanonIff(tests[i].0, key);
      if Canon(tests[i].0) == canon {
        return Some(i);
      }
    }
    found := None;
  }

  method FilterName(runParams: string, name: string) returns (line: string)
    ensures line == FilteredName(runParams, name)
  {
    line := Filtering.FilterFields(name, LogsDrop(runParams), PlainDrop(runParams));
    if Filtering.Contains(name, Filtering.MARKER) {
      line := Filtering.RStripCommas(line);
    }
  }

  method MergeCase(given: seq<Entry>, key: string, c: Case) returns (tests: seq<Entry>)
    ensures tests == MergeOne(SameTest, given, key, c)
  {
    var found := CompareWithSort(given, key);
    if found.Some? {
      tests := given[found.value := (given[found.value].0, c)];
    } else {
      tests := given + [(key, c)];
    }
  }

  /** The cases of one testsuite element, merged into those collected for its suite. */
  method MergeCases(filter: string -> string, given: seq<Entry>, ghost before: seq<Case>, cases: seq<Case>)
    returns (tests: seq<Entry>)
    requires given == Merged(filter, before)
    ensures tests == Merged(filter, before + cases)
  {
    tests := given;
    assert before + cases[..0] == before;
    for i := 0 to |cases|
      invariant tests == Merged(filter, before + cases[..i])
    {
      MergedSnoc(filter, before + cases[..i], cases[i]);
      tests := MergeCase(tests, filter(cases[i].name), cases[i]);
      assert before + cases[..i] + [cases[i]] == before + cases[..i + 1];
    }
    assert cases[..|cases|] == cases;
  }

  /** The suites named in the reports, each with its merged cases. */
  ghost predicate Collected(filter: string -> string, reports: seq<Report>, suites: map<string, seq<Entry>>) {
    && (forall s :: s in suites <==> exists i :: 0 <= i < |reports| && reports[i].suite == s)
    && (forall s :: s in suites ==> suites[s] == Merged(filter, CasesOf(reports, s)))
  }

  lemma CollectedSnoc(filter: string -> string, reports: seq<Report>, suites: map<string, seq<Entry>>, r: Report)
    requires Collected(filter, reports, suites)
    ensures Collected(filter, reports + [r], suites[r.suite := Merged(filter, CasesOf(reports, r.suite) + r.cases)])
  {
    var more := reports + [r];
    assert more[..|reports|] == reports;
    var out := suites[r.suite := Merged(filter, CasesOf(reports, r.suite) + r.cases)];
    forall s ensures s in out <==> exists i :: 0 <= i < |more| && more[i].suite == s {
      if s in out && s != r.suite {
        var i :| 0 <= i < |reports| && reports[i].suite == s;
        assert more[i].suite == s;
      }
      if s == r.suite { assert more[|reports|].suite == s; }
    }
    forall s | s in out ensures out[s] == Merged(filter, CasesOf(more, s)) {
      assert CasesOf(reports, s) + [] == CasesOf(reports, s);
    }
  }

  lemma CollectedGiven(filter: string -> string, reports: seq<Report>, suites: map<string, seq<Entry>>, suite: string)
    requires Collected(filter, reports, suites)
    ensures Merged(filter, CasesOf(reports, suite)) == if suite in suites then suites[suite] else []
  {
    if suite !in suites {
      NoCases(reports, suite);
    }
  }

  /** One testsuite element. */
  method MergeReport(filter: string -> string, ghost before: seq<Report>, suites: map<string, seq<Entry>>, r: Report)
    returns (out: map<string, seq<Entry>>)
    requires Collected(filter, before, suites)
    ensures Collected(filter, before + [r], out)
  {
    CollectedGiven(filter, before, suites, r.suite);
    CollectedSnoc(filter, before, suites, r);
    var given: seq<Entry> := [];
    if r.suite in suites {
      given := suites[r.suite];
    }
    var tests := MergeCases(filter, given, CasesOf(before, r.suite), r.cases);
    out := suites[r.suite := tests];
  }

  /** The merging loops of `merge_reports`, for any filter of the names. */
  method MergeWith(filter: string -> string, reports: seq<Report>) returns (suites: map<string, seq<Entry>>)
    ensures Collected(filter, reports, suites)
  {
    suites := map[];
    for i := 0 to |reports|
      invariant Collected(filter, reports[..i], suites)
    {
      suites := MergeReport(filter, reports[..i], suites, reports[i]);
      assert reports[..i + 1] == reports[..i] + [reports[i]];
    }
    assert reports[..|reports|] == reports;
  }

  /** `merge_reports`, up to the writing of the result. */
  method Merge(reports: seq<Report>, runParams: string) returns (suites: map<string, seq<Entry>>)
    ensures Collected(Filter(runParams), reports, suites)
  {
    suites := MergeWith(Filter(runParams), reports);
  }

  lemma {:induction false} NoCases(reports: seq<Report>, suite: string)
    requires forall i :: 0 <= i < |reports| ==> reports[i].suite != suite
    ensures CasesOf(reports, suite) == []
    decreases |reports|
  {
    if reports != [] {
      NoCases(reports[..|reports| - 1], suite);
    }
  }

  // ---------- The merged report ----------

  /** The part of a test name before its parameters. */
  function BareName(name: string): string {
    if name == [] || name[0] == ',' then [] else [name[0]] + BareName(name[1..])
  }

  lemma {:induction false} BareNamePrefix(name: string)
    ensures var n := |BareName(name)|;
            n <= |name| && name[..n] == BareName(name) && ',' !in BareName(name) && (n < |name| ==> name[n] == ',')
    decreases |name|
  {
    if name != [] && name[0] != ',' {
      BareNamePrefix(name[1..]);
    }
  }

  function CallOf(c: Case): Xunit.Call {
    BareNamePrefix(c.name);
    var tname, tparams := BareName(c.name), c.name[|BareName(c.name)|..];
    if c.error != [] then Xunit.Call(tname, c.time, "membase.error", c.error, Xunit.Fail, tparams)
    else Xunit.Call(tname, c.time, [], [], Xunit.Pass, tparams)
  }

  function EntryCall(e: Entry): Xunit.Call {
    CallOf(e.1)
  }

  function EntryTest(e: Entry): Xunit.TestCase {
    Xunit.TestOf(EntryCall(e))
  }

  function IfFailed(e: Entry): seq<Entry> {
    if e.1.error != [] then [e] else []
  }

  function Failed(tests: seq<Entry>): seq<Entry> {
    Lists.FlatMap(IfFailed, tests)
  }

  /** A written test has the name and time of its entry, and an error exactly when the entry has one. */
  lemma WrittenTest(e: Entry)
    ensures var c, t := e.1, EntryTest(e);
            && t.name + t.params == c.name && t.time == c.time
            && (if c.error == [] then t.error.None? else t.error == Some(Xunit.Error("membase.error", c.error)))
  {
    BareNamePrefix(e.1.name);
    var n := |BareName(e.1.name)|;
    assert e.1.name[..n] + e.1.name[n..] == e.1.name;
  }

  lemma {:induction false} CallsFailing(tests: seq<Entry>)
    ensures |Xunit.Failing(Lists.Map(EntryCall, tests))| == |Failed(tests)|
    decreases |tests|
  {
    if tests != [] {
      CallsFailing(tests[1..]);
      Lists.MapHead(EntryCall, tests);
    }
  }

  lemma {:induction false} AskedTests<T>(f: T -> Xunit.Call, g: T -> Xunit.TestCase, tests: seq<T>)
    requires forall e :: g(e) == Xunit.TestOf(f(e))
    ensures Xunit.Asked(Lists.Map(f, tests)).tests == multiset(Lists.Map(g, tests))
    decreases |tests|
  {
    if tests != [] {
      AskedTests(f, g, tests[1..]);
      Lists.MapHead(f, tests);
      Lists.MapHead(g, tests);
      var rest := Lists.Map(g, tests[1..]);
      assert multiset([g(tests[0])] + rest) == multiset{g(tests[0])} + multiset(rest);
    }
  }

  /** The suites written for the merged tests hold exactly one test per entry, and their errors and their
      failures are each as many as the entries with an error. */
  lemma WrittenConserves(tests: seq<Entry>)
    ensures var calls := Lists.Map(EntryCall, tests);
            var suites := Xunit.AddAll([], calls);
            var sum := Xunit.Sum(suites);
            && Xunit.Sorted(calls, suites)
            && sum.tests == multiset(Lists.Map(EntryTest, tests)) && |sum.tests| == |tests|
            && sum.errors == sum.failures == |Failed(tests)|
  {
    var calls := Lists.Map(EntryCall, tests);
    Xunit.CollectsSuites(calls);
    Xunit.CollectsTotals(calls);
    Xunit.AskedCounts(calls);
    CallsFailing(tests);
    AskedTests(EntryCall, EntryTest, tests);
  }

  function IfError(c: Case): seq<Case> {
    if c.error != [] then [c] else []
  }

  function CaseTest(c: Case): Xunit.TestCase {
    Xunit.TestOf(CallOf(c))
  }

  lemma {:induction false} FailedContents(tests: seq<Entry>)
    ensures |Failed(tests)| == |Lists.FlatMap(IfError, Contents(tests))|
    decreases |tests|
  {
    if tests != [] {
      FailedContents(tests[1..]);
      Lists.MapHead(Content, tests);
    }
  }

  lemma TestsContents(tests: seq<Entry>)
    ensures Lists.Map(EntryTest, tests) == Lists.Map(CaseTest, Contents(tests))
  {
  }

  function Written(tests: seq<Entry>): seq<Xunit.Suite> {
    Xunit.AddAll([], Lists.Map(EntryCall, tests))
  }

  /** The report written for some cases: one test for the last case of each class, and the errors among those. */
  ghost predicate Reports(filter: string -> string, cases: seq<Case>, suites: seq<Xunit.Suite>) {
    var last, sum := Contents(Lasts(SameTest, Keyed(filter, cases))), Xunit.Sum(suites);
    && sum.tests == multiset(Lists.Map(CaseTest, last)) && |sum.tests| == |last|
    && sum.errors == sum.failures == |Lists.FlatMap(IfError, last)|
  }

  /** From the cases to the written report: it holds exactly one test for each class of cases whose filtered names are
      equal up to parameter order, that of the last case of the class; and its errors and its failures are each as
      many as the classes whose last case has an error. */
  lemma ReportConserves(filter: string -> string, cases: seq<Case>)
    ensures Reports(filter, cases, Written(Merged(filter, cases)))
  {
    var last, tests := Contents(Lasts(SameTest, Keyed(filter, cases))), Merged(filter, cases);
    SameTestEquivalence();
    MergedContents(SameTest, Keyed(filter, cases));
    WrittenConserves(tests);
    FailedContents(tests);
    TestsContents(tests);
    SamePermuted(Contents(tests), last);
  }

  lemma SamePermuted(a: seq<Case>, b: seq<Case>)
    requires multiset(a) == multiset(b)
    ensures |a| == |b| && multiset(Lists.Map(CaseTest, a)) == multiset(Lists.Map(CaseTest, b))
    ensures |Lists.FlatMap(IfError, a)| == |Lists.FlatMap(IfError, b)|
  {
    Lists.MapPermute(CaseTest, a, b);
    Lists.FlatMapPermute(IfError, a, b);
    assert |multiset(a)| == |a| && |multiset(b)| == |b|;
    var x, y := Lists.FlatMap(IfError, a), Lists.FlatMap(IfError, b);
    assert |multiset(x)| == |x| && |multiset(y)| == |y|;
  }

  /** The writing loop for one suite. */
  method Write(tests: seq<Entry>) returns (xunit: Xunit.XUnitTestResult)
    ensures fresh(xunit) && xunit.Valid()
    ensures xunit.Values() == Xunit.AddAll([], Lists.Map(EntryCall, tests))
  {
    xunit := new Xunit.XUnitTestResult();
    ghost var calls := Lists.Map(EntryCall, tests);
    for i := 0 to |tests|
      invariant fresh(xunit) && xunit.Valid() && forall k :: 0 <= k < |xunit.suites| ==> fresh(xunit.suites[k])
      invariant xunit.Values() == Xunit.AddAll([], calls[..i])
    {
      var call := EntryCall(tests[i]);
      assert call == calls[i];
      xunit.AddTest(call);
      Lists.FoldNext(Xunit.Add, [], calls, i);
    }
    assert calls[..|tests|] == calls;
  }

  /** The output loop: every suite is written. */
  method WriteAll(suites: map<string, seq<Entry>>) returns (written: map<string, Xunit.XUnitTestResult>)
    ensures written.Keys == suites.Keys
    ensures forall s :: s in written ==> written[s].Valid() && written[s].Values() == Written(suites[s])
  {
    written := map[];
    var todo := suites.Keys;
    while todo != {}
      invariant todo <= suites.Keys && written.Keys == suites.Keys - todo
      invariant forall s :: s in written ==> written[s].Valid() && written[s].Values() == Written(suites[s])
      decreases |todo|
    {
      var s :| s in todo;
      var xunit := Write(suites[s]);
      written := written[s := xunit];
      todo := todo - {s};
    }
  }

  /** Merging all reports and writing every suite: each suite named in the reports is written, with one test for the
      last case of each class among all its cases. */
  method MergeAndWrite(filter: string -> string, reports: seq<Report>)
    returns (written: map<string, Xunit.XUnitTestResult>)
    ensures forall s :: s in written <==> exists i :: 0 <= i < |reports| && reports[i].suite == s
    ensures forall s :: s in written ==>
              written[s].Valid() && Reports(filter, CasesOf(reports, s), written[s].Values())
  {
    var suites := MergeWith(filter, reports);
    written := WriteAll(suites);
    forall s | s in written ensures Reports(filter, CasesOf(reports, s), written[s].Values()) {
      ReportConserves(filter, CasesOf(reports, s));
    }
  }
}
