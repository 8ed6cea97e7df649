/**
 What the dispatcher's launch loop (scripts/testDispatcher.py) keeps over whole runs, for every script of answers.
 */
module DispatcherRuns {
  import opened Wrappers
  import opened Lists
  import opened Dispatcher

  /** What holds of every head of the loop. */
  ghost predicate Inv(mode: Mode, script: seq<Reply>, tests: seq<Test>, s: State) {
    && multiset(s.pending) + multiset(s.summary) == multiset(tests)
    && Subsequence(s.pending, tests)
    && AllProper(mode, script, s.sent)
    && multiset(TestsOf(s.sent)) == (if mode.noLaunch then multiset{} else multiset(s.summary)) + multiset(s.lost)
  }

  /** Every launch names as many machines as its test needs, taken from one acquisition's answers. */
  ghost predicate AllProper(mode: Mode, script: seq<Reply>, sent: seq<Launch>) {
    forall k :: 0 <= k < |sent| ==> Staffed(mode, sent[k]) && Sourced(mode, script, sent[k])
  }

  lemma ProperSnoc(mode: Mode, script: seq<Reply>, sent: seq<Launch>, l: Launch)
    requires AllProper(mode, script, sent) && Staffed(mode, l) && Sourced(mode, script, l)
    ensures AllProper(mode, script, sent + [l])
  {
  }

  lemma TestsOfSnoc(sent: seq<Launch>, l: Launch)
    ensures multiset(TestsOf(sent + [l])) == multiset(TestsOf(sent)) + multiset{l.test}
  {
    assert TestsOf(sent + [l]) == TestsOf(sent) + [l.test];
  }

  lemma TurnKeeps(mode: Mode, script: seq<Reply>, tests: seq<Test>, s: State)
    requires Inv(mode, script, tests, s) && s.p <= |script| && !TurnFrom(mode, script, s.p, s.pending).Over?
    ensures var t := TurnFrom(mode, script, s.p, s.pending);
            (t.Popped? ==> t.i < |s.pending|) && Inv(mode, script, tests, Apply(s, t))
  {
    var t := TurnFrom(mode, script, s.p, s.pending);
    TurnBounds(mode, script, s.p, s.pending);
    if t.Popped? {
      var i, q, at := TurnPicksFirst(mode, script, s.p, s.pending);
      PopKeeps(mode, script, tests, s, t);
    } else if t.unanswered.Some? {
      var i, q, at := TurnPicksFirst(mode, script, s.p, s.pending);
      TestsOfSnoc(s.sent, t.unanswered.value);
      ProperSnoc(mode, script, s.sent, t.unanswered.value);
    }
  }

  lemma PopKeepsTests(tests: seq<Test>, s: State, t: Turn)
    requires t.Popped? && t.i < |s.pending|
    requires multiset(s.pending) + multiset(s.summary) == multiset(tests) && Subsequence(s.pending, tests)
    ensures var s' := Apply(s, t);
            multiset(s'.pending) + multiset(s'.summary) == multiset(tests) && Subsequence(s'.pending, tests)
  {
    var x, less := s.pending[t.i], s.pending[..t.i] + s.pending[t.i + 1..];
    RemoveOne(s.pending, t.i);
    SubsequenceRemove(s.pending, tests, t.i);
    assert multiset(s.summary + [x]) == multiset(s.summary) + multiset{x};
    assert multiset(less) + (multiset(s.summary) + multiset{x}) == (multiset(less) + multiset{x}) + multiset(s.summary);
  }

  lemma PopKeeps(mode: Mode, script: seq<Reply>, tests: seq<Test>, s: State, t: Turn)
    requires Inv(mode, script, tests, s) && t.Popped? && t.i < |s.pending| && (t.sent.None? <==> mode.noLaunch)
    requires t.sent.Some? ==>
      t.sent.value.test == s.pending[t.i] && Staffed(mode, t.sent.value) && Sourced(mode, script, t.sent.value)
    ensures Inv(mode, script, tests, Apply(s, t))
  {
    PopKeepsTests(tests, s, t);
    var x := s.pending[t.i];
    if t.sent.Some? {
      var l := t.sent.value;
      ProperSnoc(mode, script, s.sent, l);
      assert multiset(TestsOf(s.sent + [l])) == multiset(s.summary + [x]) + multiset(s.lost) by {
        TestsOfSnoc(s.sent, l);
        assert multiset(s.summary + [x]) == multiset(s.summary) + multiset{x};
        AddOne(multiset(TestsOf(s.sent)), x, multiset(s.summary), multiset(s.lost));
      }
    } else {
      assert s.sent + [] == s.sent;
    }
  }

  /** For every behaviour of the server manager, at every head of the loop: pending and launched tests
      are together the tests given, the pending ones in their order; every launch names as many machines
      as its test needs; and the launches sent are those of the summary and those never answered. */
  lemma {:induction false} RunKeeps(mode: Mode, script: seq<Reply>, tests: seq<Test>, s: State)
    requires Inv(mode, script, tests, s) && s.p <= |script|
    ensures Inv(mode, script, tests, Run(mode, script, s))
    decreases |script| - s.p
  {
    if s.pending != [] {
      var t := TurnFrom(mode, script, s.p, s.pending);
      TurnBounds(mode, script, s.p, s.pending);
      if !t.Over? {
        TurnKeeps(mode, script, tests, s);
        RunKeeps(mode, script, tests, Apply(s, t));
      }
    }
  }

  lemma StartKeeps(mode: Mode, script: seq<Reply>, tests: seq<Test>)
    ensures Inv(mode, script, tests, Start(tests))
  {
    SubsequenceSelf(tests);
    assert TestsOf([]) == [];
  }

  /** Over every run, each launch sent follows from a grant, with neither of its answers refused; outside Docker it
      names exactly the machines granted, as many as its test needs, and it has all its extra machines if and only if
      the answer for the extra pool lists them all. */
  lemma LaunchExtrasIff(mode: Mode, script: seq<Reply>, tests: seq<Test>, k: nat) returns (q: nat)
    requires k < |Run(mode, script, Start(tests)).sent|
    ensures var l := Run(mode, script, Start(tests)).sent[k];
            var need := l.test.addPoolServerCount;
            && Staffed(mode, l) && SourcedAt(mode, script, l, q)
            && (!mode.docker ==>
                  (ExtrasThere(l) <==> need == 0 || (q + 1 < |script| && ListsExactly(script[q + 1], need))))
  {
    StartKeeps(mode, script, tests);
    RunKeeps(mode, script, tests, Start(tests));
    var l := Run(mode, script, Start(tests)).sent[k];
    assert Sourced(mode, script, l);
    q :| SourcedAt(mode, script, l, q);
  }

  /** The loop goes on as long as there are tests and answers; summary and launches only grow at their ends. */
  lemma {:induction false} RunEnds(mode: Mode, script: seq<Reply>, s: State)
    requires s.p <= |script|
    ensures var end := Run(mode, script, s);
            && s.p <= end.p <= |script| && s.summary <= end.summary && s.sent <= end.sent
            && (end.pending == [] || EndsAs(mode, script, end.p, end.pending, Over))
    decreases |script| - s.p
  {
    var t := TurnFrom(mode, script, s.p, s.pending);
    TurnBounds(mode, script, s.p, s.pending);
    if s.pending != [] && !t.Over? {
      RunEnds(mode, script, Apply(s, t));
    } else {
      TurnIff(mode, script, s.p, s.pending, t);
    }
  }

  /** The grants that launches follow from, one after the other in the script. */
  ghost predicate InTurn(mode: Mode, script: seq<Reply>, sent: seq<Launch>, p: nat, at: seq<nat>) {
    && |at| == |sent|
    && (forall k :: 0 <= k < |at| ==> p < at[k] && SourcedAt(mode, script, sent[k], at[k]))
    && (forall k, m :: 0 <= k < m < |at| ==> at[k] < at[m])
  }

  /** Over every run no two launches follow from the same grant. */
  lemma {:induction false} GrantsUsedOnce(mode: Mode, script: seq<Reply>, s: State) returns (at: seq<nat>)
    requires s.p <= |script|
    ensures var end := Run(mode, script, s);
            && |s.sent| <= |end.sent| && end.sent[..|s.sent|] == s.sent
            && InTurn(mode, script, end.sent[|s.sent|..], s.p, at)
    decreases |script| - s.p
  {
    at := [];
    if s.pending != [] {
      var t := TurnFrom(mode, script, s.p, s.pending);
      TurnBounds(mode, script, s.p, s.pending);
      if !t.Over? {
        var s', end := Apply(s, t), Run(mode, script, s);
        at := GrantsUsedOnce(mode, script, s');
        if LaunchOf(t).Some? {
          var i, q, _ := TurnPicksFirst(mode, script, s.p, s.pending);
          InTurnCons(mode, script, LaunchOf(t).value, end.sent[|s'.sent|..], s.p, q, s'.p, at);
          assert end.sent[|s.sent|..] == [LaunchOf(t).value] + end.sent[|s'.sent|..];
          assert end.sent[..|s.sent|] == end.sent[..|s'.sent|][..|s.sent|];
          at := [q] + at;
        }
      }
    }
  }

  lemma InTurnCons(mode: Mode, script: seq<Reply>, l: Launch, rest: seq<Launch>, p: nat, q: nat, p': nat, at: seq<nat>)
    requires p < q < p' && SourcedAt(mode, script, l, q) && InTurn(mode, script, rest, p', at)
    ensures InTurn(mode, script, [l] + rest, p, [q] + at)
  {
    var sent, all := [l] + rest, [q] + at;
    forall k | 0 <= k < |all| ensures p < all[k] && SourcedAt(mode, script, sent[k], all[k]) {
      if k > 0 {
        assert all[k] == at[k - 1] && sent[k] == rest[k - 1];
      }
    }
    forall k, m | 0 <= k < m < |all| ensures all[k] < all[m] {
      assert all[m] == at[m - 1] && (k > 0 ==> all[k] == at[k - 1]);
    }
  }

  /** Where in the script the answers to launch requests are read. */
  function LaunchAnswers(mode: Mode, script: seq<Reply>, s: State): seq<nat>
    requires s.p <= |script|
    decreases |script| - s.p
  {
    if s.pending == [] then []
    else
      var t := TurnFrom(mode, script, s.p, s.pending);
      TurnBounds(mode, script, s.p, s.pending);
      if t.Over? then []
      else (if LaunchOf(t).Some? then [t.next - 1] else []) + LaunchAnswers(mode, script, Apply(s, t))
  }

  /** A launch is lost exactly when its answer is an exception. */
  lemma TurnAnswer(mode: Mode, script: seq<Reply>, p: nat, pending: seq<Test>)
    requires p <= |script| && LaunchOf(TurnFrom(mode, script, p, pending)).Some?
    ensures var t := TurnFrom(mode, script, p, pending);
            0 < t.next <= |script| && (script[t.next - 1].Raised? <==> t.Idle?)
  {
    SearchBounds(script, p + 1, pending, 0, script[p].number.value);
  }

  ghost predicate AllAnswered(script: seq<Reply>, at: seq<nat>) {
    forall k :: 0 <= k < |at| ==> at[k] < |script| && !script[at[k]].Raised?
  }

  lemma {:induction false} LostIff(mode: Mode, script: seq<Reply>, s: State)
    requires s.p <= |script|
    ensures |Run(mode, script, s).lost| >= |s.lost|
    ensures |Run(mode, script, s).lost| == |s.lost| <==> AllAnswered(script, LaunchAnswers(mode, script, s))
    ensures |Run(mode, script, s).sent| == |s.sent| + |LaunchAnswers(mode, script, s)|
    ensures forall k :: 0 <= k < |LaunchAnswers(mode, script, s)| ==> LaunchAnswers(mode, script, s)[k] < |script|
    decreases |script| - s.p
  {
    if s.pending != [] {
      var t := TurnFrom(mode, script, s.p, s.pending);
      TurnBounds(mode, script, s.p, s.pending);
      if !t.Over? {
        var rest := LaunchAnswers(mode, script, Apply(s, t));
        LostIff(mode, script, Apply(s, t));
        if LaunchOf(t).Some? {
          TurnAnswer(mode, script, s.p, s.pending);
          AnsweredCons(script, t.next - 1, rest);
        } else {
          assert [] + rest == rest;
        }
      }
    }
  }

  lemma AnsweredCons(script: seq<Reply>, q: nat, rest: seq<nat>)
    requires q < |script|
    ensures AllAnswered(script, [q] + rest) <==> !script[q].Raised? && AllAnswered(script, rest)
  {
    var at := [q] + rest;
    assert at[0] == q && forall k :: 0 <= k < |rest| ==> at[k + 1] == rest[k];
  }

  /** When the loop ends every test is in the summary once, and unless launching is off, each has been
      launched; launched exactly once if and only if every launch request was answered. */
  lemma DoneLaunchesAll(mode: Mode, script: seq<Reply>, tests: seq<Test>)
    requires Run(mode, script, Start(tests)).pending == []
    ensures var s := Run(mode, script, Start(tests));
            && multiset(s.summary) == multiset(tests)
            && (!mode.noLaunch ==> multiset(tests) <= multiset(TestsOf(s.sent)))
            && (!mode.noLaunch ==>
                  (multiset(TestsOf(s.sent)) == multiset(tests) <==>
                   AllAnswered(script, LaunchAnswers(mode, script, Start(tests)))))
  {
    StartKeeps(mode, script, tests);
    RunKeeps(mode, script, tests, Start(tests));
    LostIff(mode, script, Start(tests));
    var s := Run(mode, script, Start(tests));
    assert multiset(s.pending) == multiset{};
    if !mode.noLaunch && multiset(TestsOf(s.sent)) == multiset(tests) {
      assert |multiset(s.summary) + multiset(s.lost)| == |multiset(s.summary)| + |s.lost|;
    }
  }

  /** So a manager that never fails to answer makes every test launch exactly once. */
  lemma AnsweredLaunchesOnce(mode: Mode, script: seq<Reply>, tests: seq<Test>)
    requires Run(mode, script, Start(tests)).pending == [] && !mode.noLaunch && Raised !in script
    ensures multiset(TestsOf(Run(mode, script, Start(tests)).sent)) == multiset(tests)
  {
    DoneLaunchesAll(mode, script, tests);
    LostIff(mode, script, Start(tests));
    var at := LaunchAnswers(mode, script, Start(tests));
    forall k | 0 <= k < |at| ensures at[k] < |script| && !script[at[k]].Raised? {
      assert script[at[k]] in script;
    }
  }
}
