/** The result collector behind all reports (lib/xunit.py): tests are gathered into one suite per class. */
module Xunit {
  import opened Wrappers
  import Lists

  datatype Status = Pass | Fail | Skip

  datatype Error = Error(kind: string, message: string)

  datatype TestCase = TestCase(name: string, time: real, params: string, error: Option<Error>)

  /** The arguments of `add_test`. */
  datatype Call = Call(name: string, time: real, kind: string, message: string, status: Status, params: string)

  datatype Suite = Suite(name: string, time: real, tests: seq<TestCase>, errors: nat, failures: nat, skips: nat)

  /** `s.rfind(c)`. */
  function RFind(s: string, c: char): (k: int)
    ensures -1 <= k < |s| && (k >= 0 ==> s[k] == c) && forall i :: k < i < |s| ==> s[i] != c
  {
    if s == [] then -1
    else if s[|s| - 1] == c then |s| - 1
    else RFind(s[..|s| - 1], c)
  }

  /** The class part of a test name. Without a dot the name loses its last character; with parameters it is kept
      whole. */
  function ClassName(name: string): string {
    if ',' in name then name
    else
      var k := RFind(name, '.');
      if k >= 0 then name[..k] else if name == [] then [] else name[..|name| - 1]
  }

  /** A name is its class, a dot, and a part without dots, unless it has parameters. */
  lemma ClassNames(klass: string, rest: string)
    requires ',' !in klass && ',' !in rest && '.' !in rest
    ensures ClassName(klass + "." + rest) == klass
    ensures '.' !in klass ==> ClassName(klass) == if klass == [] then [] else klass[..|klass| - 1]
    ensures forall params :: ClassName(klass + "," + params) == klass + "," + params
  {
    var name := klass + "." + rest;
    assert name[|klass|] == '.' && name[..|klass|] == klass;
    forall i | |klass| < i < |name| ensures name[i] != '.' {
      assert name[i] == rest[i - |klass| - 1];
    }
    forall params ensures ClassName(klass + "," + params) == klass + "," + params {
      assert (klass + "," + params)[|klass|] == ',';
    }
  }

  function TestOf(c: Call): TestCase {
    TestCase(c.name, c.time, c.params, if c.status == Fail then Some(Error(c.kind, c.message)) else None)
  }

  function NewSuite(name: string): Suite {
    Suite(name, 0.0, [], 0, 0, 0)
  }

  function Count(b: bool): nat {
    if b then 1 else 0
  }

  function AddTo(s: Suite, c: Call): Suite {
    Suite(s.name, s.time + c.time, s.tests + [TestOf(c)], s.errors + Count(c.status == Fail),
          s.failures + Count(c.status == Fail), s.skips + Count(c.status == Skip))
  }

  /** The first suite of the call's class gets the test; a new suite is made if there is none. */
  function Add(suites: seq<Suite>, c: Call): seq<Suite> {
    if suites == [] then [AddTo(NewSuite(ClassName(c.name)), c)]
    else if suites[0].name == ClassName(c.name) then [AddTo(suites[0], c)] + suites[1..]
    else [suites[0]] + Add(suites[1..], c)
  }

  function AddAll(suites: seq<Suite>, calls: seq<Call>): seq<Suite> {
    Lists.Fold(Add, suites, calls)
  }

  // ---------- What is in each suite ----------

  /** The suite of one class: its calls in order, and their totals. */
  function SuiteOf(name: string, calls: seq<Call>): Suite
    decreases |calls|
  {
    if calls == [] then NewSuite(name)
    else
      var s := SuiteOf(name, calls[..|calls| - 1]);
      if ClassName(calls[|calls| - 1].name) == name then AddTo(s, calls[|calls| - 1]) else s
  }

  ghost predicate HasClass(calls: seq<Call>, name: string) {
    exists i :: 0 <= i < |calls| && ClassName(calls[i].name) == name
  }

  /** One suite for each class among the calls, holding the calls of that class. */
  ghost predicate Sorted(calls: seq<Call>, suites: seq<Suite>) {
    && (forall i, j :: 0 <= i < j < |suites| ==> suites[i].name != suites[j].name)
    && (forall i :: 0 <= i < |suites| ==>
          suites[i] == SuiteOf(suites[i].name, calls) && HasClass(calls, suites[i].name))
    && (forall name :: HasClass(calls, name) ==> exists i :: 0 <= i < |suites| && suites[i].name == name)
  }

  lemma {:induction false} AddIs(suites: seq<Suite>, c: Call) returns (k: nat)
    ensures var out, n := Add(suites, c), ClassName(c.name);
            && k <= |suites| && (forall j :: 0 <= j < k ==> suites[j].name != n)
            && (if k < |suites| then suites[k].name == n && out == suites[k := AddTo(suites[k], c)]
                else out == suites + [AddTo(NewSuite(n), c)])
    decreases |suites|
  {
    if suites == [] || suites[0].name == ClassName(c.name) {
      k := 0;
    } else {
      k := AddIs(suites[1..], c);
      k := k + 1;
    }
  }

  lemma SuiteOfSnoc(name: string, calls: seq<Call>, c: Call)
    ensures SuiteOf(name, calls + [c]) ==
            if ClassName(c.name) == name then AddTo(SuiteOf(name, calls), c) else SuiteOf(name, calls)
  {
    assert (calls + [c])[..|calls|] == calls;
  }

  lemma HasClassSnoc(calls: seq<Call>, c: Call, name: string)
    ensures HasClass(calls + [c], name) <==> HasClass(calls, name) || ClassName(c.name) == name
  {
    var more := calls + [c];
    if HasClass(calls, name) {
      var i :| 0 <= i < |calls| && ClassName(calls[i].name) == name;
      assert ClassName(more[i].name) == name;
    }
    if HasClass(more, name) {
      var i :| 0 <= i < |more| && ClassName(more[i].name) == name;
      assert i < |calls| ==> ClassName(calls[i].name) == name;
    }
    assert more[|calls|] == c;
  }

  lemma {:induction false} SuiteOfEmpty(name: string, calls: seq<Call>)
    requires !HasClass(calls, name)
    ensures SuiteOf(name, calls) == NewSuite(name)
    decreases |calls|
  {
    if calls != [] {
      var init, c := calls[..|calls| - 1], calls[|calls| - 1];
      assert calls == init + [c];
      HasClassSnoc(init, c, name);
      SuiteOfEmpty(name, init);
    }
  }

  lemma AddSorts(calls: seq<Call>, suites: seq<Suite>, c: Call)
    requires Sorted(calls, suites)
    ensures Sorted(calls + [c], Add(suites, c))
  {
    var n, out, more := ClassName(c.name), Add(suites, c), calls + [c];
    var k := AddIs(suites, c);
    if k == |suites| {
      assert !HasClass(calls, n);
      SuiteOfEmpty(n, calls);
    }
    forall i | 0 <= i < |out| ensures out[i] == SuiteOf(out[i].name, more) && HasClass(more, out[i].name) {
      SuiteOfSnoc(out[i].name, calls, c);
      HasClassSnoc(calls, c, out[i].name);
      assert i != k && i < |suites| ==> out[i] == suites[i] && suites[i].name != n;
    }
    forall name | HasClass(more, name) ensures exists i :: 0 <= i < |out| && out[i].name == name {
      HasClassSnoc(calls, c, name);
      if name == n {
        assert out[k].name == n;
      } else {
        var i :| 0 <= i < |suites| && suites[i].name == name;
        assert out[i].name == name;
      }
    }
  }

  /** However the calls come, there is one suite for each class, holding its tests in order. */
  lemma {:induction false} AddAllSorts(before: seq<Call>, suites: seq<Suite>, calls: seq<Call>)
    requires Sorted(before, suites)
    ensures Sorted(before + calls, AddAll(suites, calls))
    decreases |calls|
  {
    if calls == [] {
      assert before + calls == before;
    } else {
      AddSorts(before, suites, calls[0]);
      AddAllSorts(before + [calls[0]], Add(suites, calls[0]), calls[1..]);
      assert before + [calls[0]] + calls[1..] == before + calls;
    }
  }

  /** A test case says what its call said; it has an error if and only if the call failed. */
  predicate Records(t: TestCase, c: Call) {
    && t.name == c.name && t.time == c.time && t.params == c.params
    && (t.error.Some? <==> c.status == Fail)
    && (t.error.Some? ==> t.error.value.kind == c.kind && t.error.value.message == c.message)
  }

  /** The calls of one class, in order. */
  function OfClass(name: string, calls: seq<Call>): seq<Call>
    decreases |calls|
  {
    if calls == [] then []
    else
      var own, last := OfClass(name, calls[..|calls| - 1]), calls[|calls| - 1];
      if ClassName(last.name) == name then own + [last] else own
  }

  function WithStatus(calls: seq<Call>, status: Status): nat {
    if calls == [] then 0
    else WithStatus(calls[..|calls| - 1], status) + (if calls[|calls| - 1].status == status then 1 else 0)
  }

  function TotalTime(calls: seq<Call>): real {
    if calls == [] then 0.0 else TotalTime(calls[..|calls| - 1]) + calls[|calls| - 1].time
  }

  /** A suite records exactly the calls of its class, in order, with their number of failures and skips and their
      time. */
  lemma {:induction false} SuiteRecords(name: string, calls: seq<Call>)
    ensures var s, own := SuiteOf(name, calls), OfClass(name, calls);
            && s.name == name && |s.tests| == |own|
            && (forall k :: 0 <= k < |own| ==> Records(s.tests[k], own[k]))
            && s.errors == s.failures == WithStatus(own, Fail) && s.skips == WithStatus(own, Skip)
            && s.time == TotalTime(own)
    decreases |calls|
  {
    if calls != [] {
      var init, last := calls[..|calls| - 1], calls[|calls| - 1];
      SuiteRecords(name, init);
      var own := OfClass(name, init);
      assert (own + [last])[..|own|] == own;
    }
  }

  // ---------- Totals ----------

  datatype Totals = Totals(tests: multiset<TestCase>, errors: int, failures: int, skips: int, time: real)

  const ZERO: Totals := Totals(multiset{}, 0, 0, 0, 0.0)

  function Plus(t: Totals, u: Totals): Totals {
    Totals(t.tests + u.tests, t.errors + u.errors, t.failures + u.failures, t.skips + u.skips, t.time + u.time)
  }

  function SuiteTotals(s: Suite): Totals {
    Totals(multiset(s.tests), s.errors, s.failures, s.skips, s.time)
  }

  function Sum(suites: seq<Suite>): Totals {
    if suites == [] then ZERO else Plus(SuiteTotals(suites[0]), Sum(suites[1..]))
  }

  /** What one call asks for: a failing test is both an error and a failure. */
  function CallTotals(c: Call): Totals {
    Totals(multiset{TestOf(c)}, Count(c.status == Fail), Count(c.status == Fail), Count(c.status == Skip), c.time)
  }

  function Asked(calls: seq<Call>): Totals {
    if calls == [] then ZERO else Plus(CallTotals(calls[0]), Asked(calls[1..]))
  }

  lemma PlusLaws(t: Totals, u: Totals, v: Totals)
    ensures Plus(t, u) == Plus(u, t) && Plus(Plus(t, u), v) == Plus(t, Plus(u, v))
    ensures Plus(t, ZERO) == t == Plus(ZERO, t)
  {
  }

  lemma AddToTotals(s: Suite, c: Call)
    ensures SuiteTotals(AddTo(s, c)) == Plus(CallTotals(c), SuiteTotals(s))
  {
    assert multiset(s.tests + [TestOf(c)]) == multiset{TestOf(c)} + multiset(s.tests);
  }

  lemma {:induction false} AddSum(suites: seq<Suite>, c: Call)
    ensures Sum(Add(suites, c)) == Plus(CallTotals(c), Sum(suites))
    decreases |suites|
  {
    var out, t := Add(suites, c), CallTotals(c);
    if suites == [] {
      var s := NewSuite(ClassName(c.name));
      AddToTotals(s, c);
      assert out[0] == AddTo(s, c) && out[1..] == [];
      PlusLaws(t, SuiteTotals(s), ZERO);
    } else {
      var s, rest := suites[0], suites[1..];
      if s.name == ClassName(c.name) {
        AddToTotals(s, c);
        assert out[0] == AddTo(s, c) && out[1..] == rest;
        PlusLaws(t, SuiteTotals(s), Sum(rest));
      } else {
        AddSum(rest, c);
        assert out[0] == s && out[1..] == Add(rest, c);
        PlusLaws(SuiteTotals(s), t, Sum(rest));
        PlusLaws(t, SuiteTotals(s), Sum(rest));
      }
    }
  }

  /** The suites together hold exactly the tests asked for, with their errors, failures, skips and times. */
  lemma {:induction false} AddAllSum(suites: seq<Suite>, calls: seq<Call>)
    ensures Sum(AddAll(suites, calls)) == Plus(Sum(suites), Asked(calls))
    decreases |calls|
  {
    if calls == [] {
      PlusLaws(Sum(suites), ZERO, ZERO);
    } else {
      var t, rest := CallTotals(calls[0]), Asked(calls[1..]);
      AddSum(suites, calls[0]);
      AddAllSum(Add(suites, calls[0]), calls[1..]);
      PlusLaws(t, Sum(suites), rest);
      PlusLaws(Sum(suites), t, rest);
    }
  }

  function Failing(calls: seq<Call>): seq<Call> {
    if calls == [] then [] else (if calls[0].status == Fail then [calls[0]] else []) + Failing(calls[1..])
  }

  /** Every failing test counts once as an error and once as a failure, and there are as many tests as calls. */
  lemma {:induction false} AskedCounts(calls: seq<Call>)
    ensures var a := Asked(calls);
            a.errors == a.failures == |Failing(calls)| && |a.tests| == |calls|
    decreases |calls|
  {
    if calls != [] {
      AskedCounts(calls[1..]);
    }
  }

  /** From nothing, one suite per class. */
  lemma CollectsSuites(calls: seq<Call>)
    ensures Sorted(calls, AddAll([], calls))
  {
    AddAllSorts([], [], calls);
    assert [] + calls == calls;
  }

  /** From nothing, the totals asked for. */
  lemma CollectsTotals(calls: seq<Call>)
    ensures Sum(AddAll([], calls)) == Asked(calls)
  {
    AddAllSum([], calls);
    PlusLaws(Asked(calls), ZERO, ZERO);
  }

  // ---------- The objects ----------

  class XUnitTestSuite {
    var name: string
    var time: real
    var tests: seq<TestCase>
    var errors: nat
    var failures: nat
    var skips: nat

    constructor (name: string)
      ensures Value() == NewSuite(name)
    {
      this.name, time, tests, errors, failures, skips := name, 0.0, [], 0, 0, 0;
    }

    ghost function Value(): Suite
      reads this
    {
      Suite(name, time, tests, errors, failures, skips)
    }

    method AddTest(c: Call)
      modifies this
      ensures Value() == AddTo(old(Value()), c)
    {
      var test := TestCase(c.name, c.time, c.params, None);
      if c.status == Fail {
        test := test.(error := Some(Error(c.kind, c.message)));
      }
      tests := tests + [test];
      if c.status == Fail {
        failures := failures + 1;
        errors := errors + 1;
      } else if c.status == Skip {
        skips := skips + 1;
      }
      time := time + c.time;
    }
  }

  class XUnitTestResult {
    var suites: seq<XUnitTestSuite>

    constructor ()
      ensures suites == []
    {
      suites := [];
    }

    ghost predicate Valid()
      reads this
    {
      forall i, j :: 0 <= i < j < |suites| ==> suites[i] != suites[j]
    }

    ghost function Values(): seq<Suite>
      reads this, suites
    {
      seq(|suites|, i requires 0 <= i < |suites| reads this, suites => suites[i].Value())
    }

    method AddTest(c: Call)
      requires Valid()
      modifies this, suites
      ensures Valid() && Values() == Add(old(Values()), c)
      ensures forall i :: 0 <= i < |suites| ==> suites[i] in old(suites) || fresh(suites[i])
    {
      var className := c.name;
      if ',' !in c.name {
        var k := RFind(c.name, '.');
        className := if k >= 0 then c.name[..k] else if c.name == [] then [] else c.name[..|c.name| - 1];
      }
      ghost var was := Values();
      ghost var at := AddIs(was, c);
      for i := 0 to |suites|
        invariant unchanged(this) && forall s :: s in suites ==> unchanged(s)
        invariant i <= at
      {
        assert was[i] == suites[i].Value();
        if suites[i].name == className {
          suites[i].AddTest(c);
          assert Values() == was[i := AddTo(was[i], c)];
          return;
        }
      }
      var suite := new XUnitTestSuite(className);
      suite.AddTest(c);
      suites := suites + [suite];
      assert Values() == was + [AddTo(NewSuite(className), c)];
    }
  }
}
