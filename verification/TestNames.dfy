/**
 Test names in the test runner (testrunner.py): de-duplication of filtered names, and the parameters that
 are printed behind a name and parsed back out of it.
 */
module TestNames {
  import opened Wrappers
  import Lists
  import Strings
  import Sorting
  import Filtering
  import MergeReports

  // ---------- De-duplication ----------

  const LOGS_DROP: seq<string> :=
    ["logs_folder", "conf_file", "cluster_name:", "ini:", "case_number:", "num_nodes:", "spec:"]

  const PLAIN_DROP: seq<string> :=
    ["logs_folder=", "conf_file=", "cluster_name=", "ini=", "case_number=", "num_nodes=", "spec="]

  /** The line that stands for a test. */
  function LineOf(name: string): string {
    Filtering.RStripCommas(Filtering.Filtered(name, LOGS_DROP, PLAIN_DROP))
  }

  /** What `check_if_exists` takes for the same test: any rearrangement of the characters. */
  predicate Anagram(a: string, b: string) {
    multiset(a) == multiset(b)
  }

  /** `kept` has one line of each class of lines that are rearrangements of each other, the first of its class. */
  ghost predicate Represents(lines: seq<string>, kept: seq<string>) {
    && (forall i, j :: 0 <= i < j < |kept| ==> !Anagram(kept[i], kept[j]))
    && (forall n :: 0 <= n < |lines| ==> Stands(kept, lines[n]))
    && (forall i :: 0 <= i < |kept| ==> FirstOfClass(lines, kept[i]))
  }

  ghost predicate Stands(kept: seq<string>, line: string) {
    exists i :: 0 <= i < |kept| && Anagram(kept[i], line)
  }

  ghost predicate FirstOfClass(lines: seq<string>, line: string) {
    exists f :: 0 <= f < |lines| && lines[f] == line && forall m :: 0 <= m < f ==> !Anagram(lines[m], line)
  }

  method CheckIfExists(kept: seq<string>, line: string) returns (found: bool)
    ensures found == Stands(kept, line)
  {
    var sorted := Sorting.Sort(Sorting.CharLe, line);
    Sorting.CharOrder();
    for i := 0 to |kept|
      invariant forall j :: 0 <= j < i ==> !Anagram(kept[j], line)
    {
      Sorting.SortEqual(Sorting.CharLe, kept[i], line);
      if Sorting.Sort(Sorting.CharLe, kept[i]) == sorted {
        return true;
      }
    }
    found := false;
  }

  lemma FirstSnoc(lines: seq<string>, line: string, x: string)
    requires FirstOfClass(lines, x)
    ensures FirstOfClass(lines + [line], x)
  {
    var f :| 0 <= f < |lines| && lines[f] == x && forall m :: 0 <= m < f ==> !Anagram(lines[m], x);
    assert (lines + [line])[f] == x;
  }

  lemma StandsMore(kept: seq<string>, out: seq<string>, line: string)
    requires Stands(kept, line) && kept <= out
    ensures Stands(out, line)
  {
    var i :| 0 <= i < |kept| && Anagram(kept[i], line);
    assert Anagram(out[i], line);
  }

  lemma NewIsFirst(lines: seq<string>, kept: seq<string>, line: string)
    requires Represents(lines, kept) && !Stands(kept, line)
    ensures FirstOfClass(lines + [line], line)
  {
    var more := lines + [line];
    forall m | 0 <= m < |lines| ensures !Anagram(more[m], line) {
      assert Stands(kept, lines[m]);
    }
    assert more[|lines|] == line;
  }

  lemma RepresentsSnoc(lines: seq<string>, kept: seq<string>, line: string, out: seq<string>)
    requires Represents(lines, kept) && out == if Stands(kept, line) then kept else kept + [line]
    ensures Represents(lines + [line], out)
  {
    var more := lines + [line];
    forall n | 0 <= n < |more| ensures Stands(out, more[n]) {
      if n < |lines| {
        StandsMore(kept, out, lines[n]);
      } else if !Stands(kept, line) {
        assert Anagram(out[|kept|], line);
      }
    }
    forall i | 0 <= i < |out| ensures FirstOfClass(more, out[i]) {
      if i < |kept| {
        FirstSnoc(lines, line, kept[i]);
      } else {
        NewIsFirst(lines, kept, line);
      }
    }
    if !Stands(kept, line) {
      StillApart(kept, line);
    }
  }

  lemma StillApart(kept: seq<string>, line: string)
    requires (forall i, j :: 0 <= i < j < |kept| ==> !Anagram(kept[i], kept[j])) && !Stands(kept, line)
    ensures var out := kept + [line];
            forall i, j :: 0 <= i < j < |out| ==> !Anagram(out[i], out[j])
  {
  }

  method FilterLine(name: string) returns (line: string)
    ensures line == LineOf(name)
  {
    line := Filtering.FilterFields(name, LOGS_DROP, PLAIN_DROP);
    line := Filtering.RStripCommas(line);
  }

  /** The loop of `transform_and_write_to_file`, for any way to get a test's line. */
  method Deduplicate(lineOf: string -> string, tests: seq<string>) returns (kept: seq<string>)
    ensures Represents(Lists.Map(lineOf, tests), kept) && Lists.Subsequence(kept, Lists.Map(lineOf, tests))
  {
    hide Stands, Lists.Subsequence;
    Lists.SubsequenceSelf<string>([]);
    kept := [];
    ghost var lines := Lists.Map(lineOf, tests);
    for i := 0 to |tests|
      invariant Represents(lines[..i], kept) && Lists.Subsequence(kept, lines[..i])
    {
      var line := lineOf(tests[i]);
      var found := CheckIfExists(kept, line);
      assert lines[..i + 1] == lines[..i] + [line];
      RepresentsSnoc(lines[..i], kept, line, if found then kept else kept + [line]);
      Lists.SubsequenceSnoc(kept, lines[..i], line);
      if !found {
        kept := kept + [line];
      }
    }
    assert lines[..|tests|] == lines;
  }

  /** `transform_and_write_to_file`, without the file. */
  method Transform(tests: seq<string>) returns (kept: seq<string>)
    ensures Represents(Lists.Map(LineOf, tests), kept) && Lists.Subsequence(kept, Lists.Map(LineOf, tests))
  {
    kept := Deduplicate(LineOf, tests);
  }

  /** For all words: a name whose last parameter also stands before its logs folder comes out of the source's
      filter with the two run together. */
  lemma FusedLine(a: string, w: string, logs: string)
    requires Filtering.Plain([a, w, logs, w]) && a != w && w != [] && Filtering.MARKER <= logs
    requires !Filtering.Dropped(a, LOGS_DROP) && !Filtering.Dropped(w, LOGS_DROP)
    ensures LineOf(Filtering.FourWords(a, w, logs, w)) ==
            Filtering.Replaced(a) + [','] + (Filtering.Replaced(w) + Filtering.Replaced(w))
  {
    assert LOGS_DROP[0] <= Filtering.MARKER;
    Filtering.FusedFilter(a, w, logs, LOGS_DROP, PLAIN_DROP);
  }

  lemma NotDropped(word: string)
    requires word != [] && (word[0] == 't' || word[0] == 'x')
    ensures !Filtering.Dropped(word, LOGS_DROP)
  {
    assert forall i :: 0 <= i < |LOGS_DROP| ==> LOGS_DROP[i][0] != 't' && LOGS_DROP[i][0] != 'x';
  }

  lemma FusedText(line: string -> string, name: string, a: string, w: string, logs: string)
    requires name == "t,x:1,logs_folder:z,x:1" && a == "t" && w == "x:1" && logs == "logs_folder:z"
    requires line(Filtering.FourWords(a, w, logs, w)) ==
             Filtering.Replaced(a) + [','] + (Filtering.Replaced(w) + Filtering.Replaced(w))
    ensures line(name) == "t,x=1x=1"
  {
    assert Filtering.FourWords(a, w, logs, w) == name;
    Filtering.ReplacedAt(a, 1);
    Filtering.ReplacedAt(w, 1);
  }

  /** For one, "t,x:1,logs_folder:z,x:1" comes out as "t,x=1x=1". */
  lemma FusedExample(name: string, a: string, w: string, logs: string)
    requires name == "t,x:1,logs_folder:z,x:1" && a == "t" && w == "x:1" && logs == "logs_folder:z"
    ensures LineOf(name) == "t,x=1x=1"
  {
    NotDropped(a);
    NotDropped(w);
    FusedLine(a, w, logs);
    FusedText(LineOf, name, a, w, logs);
  }

  // ---------- The two ways to compare names ----------

  function Prefixed(word: string): string {
    [','] + word
  }

  lemma {:induction false} JoinFlat(words: seq<string>)
    requires words != []
    ensures Strings.Join(words, ',') == words[0] + Lists.FlatMap(Prefixed, words[1..])
    decreases |words|
  {
    if |words| > 1 {
      JoinFlat(words[1..]);
      assert words[1..][1..] == words[2..];
      var x, y := words[1], Lists.FlatMap(Prefixed, words[2..]);
      assert words[0] + [','] + (x + y) == words[0] + (([','] + x) + y);
    }
  }

  predicate Ends(line: string) {
    line != [] && line[|line| - 1] == ','
  }

  lemma LoneParamEnds(line: string, words: seq<string>)
    requires words != [] && line == words[0] + Lists.FlatMap(Prefixed, words[1..]) && words[1..] == [[]]
    ensures Ends(line)
  {
    Lists.FlatMapOne(Prefixed, []);
  }

  lemma ParamsOf(line: string)
    requires !Ends(line)
    ensures var words := Strings.Split(line, ',');
            MergeReports.Params(words[1..]) == words[1..] && line == words[0] + Lists.FlatMap(Prefixed, words[1..])
  {
    var words := Strings.Split(line, ',');
    Strings.SplitParts(line, ',');
    JoinFlat(words);
    if words[1..] == [[]] {
      LoneParamEnds(line, words);
    }
  }

  /** On lines without trailing commas, names that the report merger takes for one test are taken for one
      test by the de-duplication. */
  lemma SameTestIsAnagram(a: string, b: string)
    requires !Ends(a) && !Ends(b) && MergeReports.Canon(a) == MergeReports.Canon(b)
    ensures Anagram(a, b)
  {
    MergeReports.CanonIff(a, b);
    ParamsOf(a);
    ParamsOf(b);
    var p, q := Strings.Split(a, ','), Strings.Split(b, ',');
    Lists.FlatMapPermute(Prefixed, p[1..], q[1..]);
  }

  lemma {:induction false} LinesEnd(s: string)
    ensures !Ends(Filtering.RStripCommas(s))
    decreases |s|
  {
    if Ends(s) {
      LinesEnd(s[..|s| - 1]);
    }
  }

  /** So lines kept by the de-duplication are different tests for the report merger too. */
  lemma KeptDiffer(tests: seq<string>, kept: seq<string>, i: nat, j: nat)
    requires Represents(Lists.Map(LineOf, tests), kept) && i < j < |kept|
    ensures MergeReports.Canon(kept[i]) != MergeReports.Canon(kept[j])
  {
    var lines := Lists.Map(LineOf, tests);
    forall k | k == i || k == j ensures !Ends(kept[k]) {
      assert FirstOfClass(lines, kept[k]);
      var f :| 0 <= f < |lines| && lines[f] == kept[k];
      LinesEnd(Filtering.Filtered(tests[f], LOGS_DROP, PLAIN_DROP));
    }
    if MergeReports.Canon(kept[i]) == MergeReports.Canon(kept[j]) {
      SameTestIsAnagram(kept[i], kept[j]);
    }
  }

  lemma AnagramSwap(a: string, x: char, y: char, b: string)
    ensures Anagram(a + [x, y] + b, a + [y, x] + b)
  {
  }

  lemma ParamDiffers(h: string, u: string, v: string)
    requires ',' !in h && ',' !in u && ',' !in v && u != v && u != [] && v != []
    ensures MergeReports.Canon(h + [','] + u) != MergeReports.Canon(h + [','] + v)
  {
    Strings.SplitAt(h, u, ',');
    Strings.SplitAt(h, v, ',');
    Strings.SplitNone(u, ',');
    Strings.SplitNone(v, ',');
    MergeReports.CanonIff(h + [','] + u, h + [','] + v);
    assert multiset([u])[u] == 1 && multiset([v])[u] == 0;
  }

  /** The other way round fails: two tests whose parameter names are rearrangements of each other. */
  lemma AnagramsDiffer(h: string, x: char, y: char, value: string)
    requires x != y && ',' !in h && ',' !in value && x != ',' && y != ','
    ensures var a, b := h + [','] + ([x, y] + value), h + [','] + ([y, x] + value);
            Anagram(a, b) && MergeReports.Canon(a) != MergeReports.Canon(b)
  {
    AnagramSwap(h + [','], x, y, value);
    var u, v := [x, y] + value, [y, x] + value;
    assert u[0] != v[0];
    assert h + [','] + [x, y] + value == h + [','] + u && h + [','] + [y, x] + value == h + [','] + v;
    ParamDiffers(h, u, v);
  }

  /** Every line is the same test, for the report merger, as some line that was kept. */
  ghost predicate LosesNothing(lines: seq<string>, kept: seq<string>) {
    forall n :: 0 <= n < |lines| ==> Survives(kept, lines[n])
  }

  ghost predicate Survives(kept: seq<string>, line: string) {
    exists i :: 0 <= i < |kept| && MergeReports.Canon(kept[i]) == MergeReports.Canon(line)
  }

  /** Lines that are rearrangements of each other are the same test for the report merger. */
  ghost predicate Unambiguous(lines: seq<string>) {
    forall m, n :: 0 <= m < |lines| && 0 <= n < |lines| && Anagram(lines[m], lines[n]) ==>
      MergeReports.Canon(lines[m]) == MergeReports.Canon(lines[n])
  }

  ghost predicate NoneEnds(lines: seq<string>) {
    forall n :: 0 <= n < |lines| ==> !Ends(lines[n])
  }

  lemma UnambiguousSurvives(lines: seq<string>, kept: seq<string>, n: nat)
    requires Represents(lines, kept) && Unambiguous(lines) && n < |lines|
    ensures Survives(kept, lines[n])
  {
    assert Stands(kept, lines[n]);
    var i :| 0 <= i < |kept| && Anagram(kept[i], lines[n]);
    assert FirstOfClass(lines, kept[i]);
    var f :| 0 <= f < |lines| && lines[f] == kept[i];
    assert Anagram(lines[f], lines[n]);
  }

  /** The kept line that a surviving line is the same test as is also a rearrangement of it. */
  lemma SurvivorIsAnagram(kept: seq<string>, line: string) returns (i: nat)
    requires NoneEnds(kept) && !Ends(line) && Survives(kept, line)
    ensures i < |kept| && MergeReports.Canon(kept[i]) == MergeReports.Canon(line) && Anagram(kept[i], line)
  {
    i :| 0 <= i < |kept| && MergeReports.Canon(kept[i]) == MergeReports.Canon(line);
    SameTestIsAnagram(kept[i], line);
  }

  /** De-duplication loses no test if and only if no two different tests among the lines are rearrangements of
      each other. */
  lemma LosesNothingIff(lines: seq<string>, kept: seq<string>)
    requires Represents(lines, kept) && NoneEnds(lines)
    ensures LosesNothing(lines, kept) <==> Unambiguous(lines)
  {
    if Unambiguous(lines) {
      forall n | 0 <= n < |lines| ensures Survives(kept, lines[n]) {
        UnambiguousSurvives(lines, kept, n);
      }
    }
    if LosesNothing(lines, kept) {
      forall i | 0 <= i < |kept| ensures !Ends(kept[i]) {
        assert FirstOfClass(lines, kept[i]);
      }
      forall m, n | 0 <= m < |lines| && 0 <= n < |lines| && Anagram(lines[m], lines[n])
        ensures MergeReports.Canon(lines[m]) == MergeReports.Canon(lines[n]) {
        var i := SurvivorIsAnagram(kept, lines[m]);
        var j := SurvivorIsAnagram(kept, lines[n]);
        assert Anagram(kept[i], kept[j]);
        assert i == j;
      }
    }
  }

  lemma LinesOfEnd(tests: seq<string>)
    ensures NoneEnds(Lists.Map(LineOf, tests))
  {
    forall n | 0 <= n < |tests| ensures !Ends(Lists.Map(LineOf, tests)[n]) {
      LinesEnd(Filtering.Filtered(tests[n], LOGS_DROP, PLAIN_DROP));
    }
  }

  /** So for the tests given: whatever list `Transform` returns loses none of them exactly when their lines are
      unambiguous. */
  lemma TransformLosesNothingIff(tests: seq<string>, kept: seq<string>)
    requires Represents(Lists.Map(LineOf, tests), kept)
    ensures LosesNothing(Lists.Map(LineOf, tests), kept) <==> Unambiguous(Lists.Map(LineOf, tests))
  {
    LinesOfEnd(tests);
    LosesNothingIff(Lists.Map(LineOf, tests), kept);
  }

  // ---------- Parameters ----------

  /** A parameter's name and value. */
  type Pair = (string, string)

  /** The end of the run of characters other than "," and "=" that begins at `g`. */
  function RunEnd(s: string, g: nat): (e: nat)
    requires g <= |s|
    ensures g <= e <= |s| && (forall j :: g <= j < e ==> s[j] != ',' && s[j] != '=')
    ensures e < |s| ==> s[e] == ',' || s[e] == '='
    decreases |s| - g
  {
    if g == |s| || s[g] == ',' || s[g] == '=' then g else RunEnd(s, g + 1)
  }

  /** Where the name begins in a match of "[,]?([^,=]+)=" at `i`. */
  function Group(s: string, i: nat): nat
    requires i < |s|
  {
    if s[i] == ',' then i + 1 else i
  }

  predicate MatchAt(s: string, i: nat) {
    i < |s| && var g := Group(s, i); var e := RunEnd(s, g); g < e < |s| && s[e] == '='
  }

  /** The leftmost match from `i` on. */
  function FindMatch(s: string, i: nat): (r: Option<nat>)
    requires i <= |s|
    ensures r.Some? ==> i <= r.value && MatchAt(s, r.value) && forall j :: i <= j < r.value ==> !MatchAt(s, j)
    ensures r.None? ==> forall j :: i <= j ==> !MatchAt(s, j)
    decreases |s| - i
  {
    if i == |s| then None else if MatchAt(s, i) then Some(i) else FindMatch(s, i + 1)
  }

  /** The text before the first match, and the name and following text of every match: what `re.split` gives. */
  function Pieces(s: string): (string, seq<Pair>)
    decreases |s|
  {
    match FindMatch(s, 0)
    case None => (s, [])
    case Some(i) =>
      var g := Group(s, i);
      var e := RunEnd(s, g);
      var (text, pairs) := Pieces(s[e + 1..]);
      (s[..i], [(s[g..e], text)] + pairs)
  }

  function Stripped(p: Pair): Pair {
    (Strings.Strip(p.0), Strings.Strip(p.1))
  }

  /** The parameters of a test name, in order. */
  function Parse(name: string): seq<Pair> {
    Lists.Map(Stripped, Pieces(name).1)
  }

  function Shown(p: Pair): seq<Pair> {
    if p.0 != [] && p.1 != [] then [p] else []
  }

  function Printed(p: Pair): string {
    if p.0 != [] && p.1 != [] then [','] + p.0 + ['='] + p.1 else []
  }

  method PrintParams(pairs: seq<Pair>) returns (params: string)
    ensures params == Lists.FlatMap(Printed, pairs)
  {
    params := [];
    for i := 0 to |pairs|
      invariant params == Lists.FlatMap(Printed, pairs[..i])
    {
      assert pairs[..i + 1] == pairs[..i] + [pairs[i]];
      Lists.FlatMapConcat(Printed, pairs[..i], [pairs[i]]);
      Lists.FlatMapOne(Printed, pairs[i]);
      if pairs[i].0 != [] && pairs[i].1 != [] {
        params := params + ([','] + pairs[i].0 + ['='] + pairs[i].1);
      }
    }
    assert pairs[..|pairs|] == pairs;
  }

  predicate Clean(p: Pair) {
    ',' !in p.0 && '=' !in p.0 && '=' !in p.1
  }

  /** A parameter that can be told apart when printed, without white space at the ends. */
  predicate Legal(p: Pair) {
    Clean(p) && Stripped(p) == p
  }

  /** Nothing matches inside a text without "=" that is followed by a comma or by nothing. */
  lemma NoMatchInside(s: string, n: nat, i: nat)
    requires i < n <= |s| && (n == |s| || s[n] == ',') && forall y :: 0 <= y < n ==> s[y] != '='
    ensures !MatchAt(s, i)
  {
    var e := RunEnd(s, Group(s, i));
    assert e < n ==> s[e] != '=';
  }

  lemma RunIs(s: string, g: nat, name: string)
    requires g + |name| < |s| && s[g..g + |name|] == name && s[g + |name|] == '=' && ',' !in name && '=' !in name
    ensures RunEnd(s, g) == g + |name|
  {
    assert forall j :: g <= j < g + |name| ==> s[j] == name[j - g];
  }

  function Assignment(name: string, more: string): string {
    [','] + name + ['='] + more
  }

  lemma AssignmentSlices(text: string, name: string, more: string)
    ensures var s, g, e := text + Assignment(name, more), |text| + 1, |text| + 1 + |name|;
            && |s| > e && s[|text|] == ',' && s[e] == '='
            && s[..|text|] == text && s[g..e] == name && s[e + 1..] == more
  {
  }

  lemma CommaMatches(s: string, i: nat, e: nat)
    requires i + 1 < e < |s| && s[i] == ',' && RunEnd(s, i + 1) == e && s[e] == '='
    ensures MatchAt(s, i) && Group(s, i) == i + 1
  {
  }

  /** The match for a printed parameter begins at its comma. */
  lemma MatchPrinted(s: string, n: nat, name: string)
    requires n + 1 + |name| < |s| && s[n] == ',' && forall y :: 0 <= y < n ==> s[y] != '='
    requires name != [] && ',' !in name && '=' !in name
    requires s[n + 1..n + 1 + |name|] == name && s[n + 1 + |name|] == '='
    ensures FindMatch(s, 0) == Some(n) && Group(s, n) == n + 1 && RunEnd(s, n + 1) == n + 1 + |name|
  {
    RunIs(s, n + 1, name);
    CommaMatches(s, n, n + 1 + |name|);
    forall j: nat | j < n ensures !MatchAt(s, j) {
      NoMatchInside(s, n, j);
    }
  }

  lemma PiecesAt(s: string, i: nat, e: nat, name: string, more: string)
    requires FindMatch(s, 0) == Some(i) && i < |s| && Group(s, i) == i + 1 && e == RunEnd(s, i + 1) && e < |s|
    requires s[i + 1..e] == name && s[e + 1..] == more
    ensures Pieces(s) == (s[..i], [(name, Pieces(more).0)] + Pieces(more).1)
  {
  }

  lemma PiecesNone(text: string)
    requires '=' !in text
    ensures Pieces(text) == (text, [])
  {
    forall j: nat ensures !MatchAt(text, j) {
      if j < |text| { NoMatchInside(text, |text|, j); }
    }
  }

  lemma PiecesOne(text: string, name: string, more: string)
    requires '=' !in text && name != [] && ',' !in name && '=' !in name
    ensures Pieces(text + Assignment(name, more)) == (text, [(name, Pieces(more).0)] + Pieces(more).1)
  {
    var s, e := text + Assignment(name, more), |text| + 1 + |name|;
    AssignmentSlices(text, name, more);
    assert forall y :: 0 <= y < |text| ==> s[y] == text[y];
    MatchPrinted(s, |text|, name);
    PiecesAt(s, |text|, e, name, more);
  }

  lemma PrintedFirst(text: string, p: Pair, rest: string)
    requires p.0 != [] && p.1 != []
    ensures text + (Printed(p) + rest) == text + Assignment(p.0, p.1 + rest)
  {
  }

  lemma PiecesCons(text: string, p: Pair, rest: string, pairs: seq<Pair>)
    requires '=' !in text && Clean(p) && p.0 != [] && p.1 != [] && Pieces(p.1 + rest) == (p.1, pairs)
    ensures Pieces(text + (Printed(p) + rest)) == (text, [p] + pairs)
  {
    PiecesOne(text, p.0, p.1 + rest);
    PrintedFirst(text, p, rest);
  }

  /** A splitting that behaves on printed text as `Pieces` does. */
  ghost predicate SplitsPrinted(pieces: string -> (string, seq<Pair>)) {
    && (forall t :: '=' !in t ==> pieces(t) == (t, []))
    && (forall t, p: Pair, rest {:trigger pieces(t + (Printed(p) + rest))} ::
          '=' !in t && Clean(p) && p.0 != [] && p.1 != [] && pieces(p.1 + rest).0 == p.1 ==>
          pieces(t + (Printed(p) + rest)) == (t, [p] + pieces(p.1 + rest).1))
  }

  lemma PrintedStep(pieces: string -> (string, seq<Pair>), t: string, p: Pair, rest: string)
    requires SplitsPrinted(pieces) && '=' !in t && Clean(p) && p.0 != [] && p.1 != [] && pieces(p.1 + rest).0 == p.1
    ensures pieces(t + (Printed(p) + rest)) == (t, [p] + pieces(p.1 + rest).1)
  {
  }

  lemma {:induction false} PrintedSplit(pieces: string -> (string, seq<Pair>), text: string, pairs: seq<Pair>)
    requires SplitsPrinted(pieces)
    requires '=' !in text && forall i :: 0 <= i < |pairs| ==> Clean(pairs[i])
    ensures pieces(text + Lists.FlatMap(Printed, pairs)) == (text, Lists.FlatMap(Shown, pairs))
    decreases |pairs|
  {
    if pairs == [] {
      assert text + [] == text;
    } else {
      var p, rest, shown := pairs[0], Lists.FlatMap(Printed, pairs[1..]), Lists.FlatMap(Shown, pairs[1..]);
      assert Lists.FlatMap(Printed, pairs) == Printed(p) + rest && Lists.FlatMap(Shown, pairs) == Shown(p) + shown;
      if p.0 != [] && p.1 != [] {
        PrintedSplit(pieces, p.1, pairs[1..]);
        PrintedStep(pieces, text, p, rest);
      } else {
        PrintedSplit(pieces, text, pairs[1..]);
        assert Printed(p) + rest == rest && Shown(p) + shown == shown;
      }
    }
  }

  lemma PiecesPrinted(text: string, pairs: seq<Pair>)
    requires '=' !in text && forall i :: 0 <= i < |pairs| ==> Clean(pairs[i])
    ensures Pieces(text + Lists.FlatMap(Printed, pairs)) == (text, Lists.FlatMap(Shown, pairs))
  {
    PiecesSplitsPrinted();
    PrintedSplit(Pieces, text, pairs);
  }

  lemma PiecesSplitsPrinted()
    ensures SplitsPrinted(Pieces)
  {
    forall t | '=' !in t ensures Pieces(t) == (t, []) {
      PiecesNone(t);
    }
    forall t, p: Pair, rest | '=' !in t && Clean(p) && p.0 != [] && p.1 != [] && Pieces(p.1 + rest).0 == p.1
      ensures Pieces(t + (Printed(p) + rest)) == (t, [p] + Pieces(p.1 + rest).1) {
      PiecesCons(t, p, rest, Pieces(p.1 + rest).1);
    }
  }

  /** Parsing a test name with printed parameters gives back the parameters, values with commas included. */
  lemma ParsePrinted(name: string, pairs: seq<Pair>)
    requires '=' !in name && forall i :: 0 <= i < |pairs| ==> Legal(pairs[i])
    ensures Parse(name + Lists.FlatMap(Printed, pairs)) == Lists.FlatMap(Shown, pairs)
  {
    PiecesPrinted(name, pairs);
    ShownStripped(pairs);
  }

  lemma {:induction false} ShownStripped(pairs: seq<Pair>)
    requires forall i :: 0 <= i < |pairs| ==> Legal(pairs[i])
    ensures Lists.Map(Stripped, Lists.FlatMap(Shown, pairs)) == Lists.FlatMap(Shown, pairs)
    decreases |pairs|
  {
    if pairs != [] {
      ShownStripped(pairs[1..]);
      var a, b := Shown(pairs[0]), Lists.FlatMap(Shown, pairs[1..]);
      assert Lists.Map(Stripped, a + b) == Lists.Map(Stripped, a) + Lists.Map(Stripped, b);
      assert Legal(pairs[0]) ==> Lists.Map(Stripped, a) == a;
    }
  }

  /** `dict(...)` of a list of pairs: later ones replace earlier ones. */
  function Dict(pairs: seq<Pair>): map<string, string> {
    if pairs == [] then map[] else Dict(pairs[..|pairs| - 1])[pairs[|pairs| - 1].0 := pairs[|pairs| - 1].1]
  }

  lemma {:induction false} DictIs(pairs: seq<Pair>)
    requires forall i, j :: 0 <= i < j < |pairs| ==> pairs[i].0 != pairs[j].0
    ensures forall k, v :: k in Dict(pairs) && Dict(pairs)[k] == v <==> (k, v) in pairs
    decreases |pairs|
  {
    if pairs != [] {
      var init, last := pairs[..|pairs| - 1], pairs[|pairs| - 1];
      DictIs(init);
      assert pairs == init + [last];
      forall k, v ensures k in Dict(pairs) && Dict(pairs)[k] == v <==> (k, v) in pairs {
        assert forall i :: 0 <= i < |init| ==> init[i].0 == pairs[i].0 != last.0;
      }
    }
  }

  /** The dictionary that printed the parameters is the dictionary that is parsed back. */
  lemma DictPrinted(name: string, pairs: seq<Pair>, k: string, v: string)
    requires '=' !in name
    requires forall i :: 0 <= i < |pairs| ==> Legal(pairs[i]) && pairs[i].0 != [] && pairs[i].1 != []
    requires forall i, j :: 0 <= i < j < |pairs| ==> pairs[i].0 != pairs[j].0
    ensures var d := Dict(Parse(name + Lists.FlatMap(Printed, pairs)));
            k in d && d[k] == v <==> (k, v) in pairs
  {
    ParsePrinted(name, pairs);
    AllShown(pairs);
    DictIs(pairs);
  }

  lemma {:induction false} AllShown(pairs: seq<Pair>)
    requires forall i :: 0 <= i < |pairs| ==> pairs[i].0 != [] && pairs[i].1 != []
    ensures Lists.FlatMap(Shown, pairs) == pairs
    decreases |pairs|
  {
    if pairs != [] {
      AllShown(pairs[1..]);
    }
  }
}
