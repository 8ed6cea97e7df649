/**
 `filter_fields`, in the two forms it has in scripts/merge_reports.py and testrunner.py: a test name is
 a list of comma-separated words, and words that begin with a run-specific parameter are taken out.
 */
module Filtering {
  import Strings
  import Lists

  /** Whether a word begins with one of the (non-empty) parameters to take out. */
  predicate Dropped(word: string, drop: seq<string>) {
    exists i :: 0 <= i < |drop| && drop[i] != [] && drop[i] <= word
  }

  function Kept(words: seq<string>, drop: seq<string>): seq<string> {
    if words == [] then []
    else (if Dropped(words[0], drop) then [] else [words[0]]) + Kept(words[1..], drop)
  }

  predicate OccursAt(name: string, part: string, i: nat) {
    i + |part| <= |name| && name[i..i + |part|] == part
  }

  /** `part in name`. */
  predicate Contains(name: string, part: string) {
    exists i :: 0 <= i <= |name| && OccursAt(name, part, i)
  }

  /** `word.replace(":", "=", 1)`. */
  function Replaced(word: string): string {
    if word == [] then [] else if word[0] == ':' then ['='] + word[1..] else [word[0]] + Replaced(word[1..])
  }

  function Piece(word: string, last: string): string {
    Replaced(word) + if word != last then [','] else []
  }

  /** The kept words, each with a comma behind it unless it equals `last`. */
  function Line(words: seq<string>, last: string): string {
    if words == [] then [] else Piece(words[0], last) + Line(words[1..], last)
  }

  /** The line put together in the "logs_folder:" form: a comma follows each word that differs from the last one. */
  function LogsLine(words: seq<string>, last: string, drop: seq<string>): string {
    Line(Kept(words, drop), last)
  }

  function RStripCommas(s: string): string {
    if s != [] && s[|s| - 1] == ',' then RStripCommas(s[..|s| - 1]) else s
  }

  const MARKER: string := "logs_folder:"

  function Filtered(name: string, logsDrop: seq<string>, plainDrop: seq<string>): string {
    var words := Strings.Split(name, ',');
    if Contains(name, MARKER) then LogsLine(words, words[|words| - 1], logsDrop)
    else Strings.Join(Kept(words, plainDrop), ',')
  }

  method IsDropped(word: string, drop: seq<string>) returns (filterWord: bool)
    ensures filterWord == Dropped(word, drop)
  {
    filterWord := false;
    for i := 0 to |drop|
      invariant filterWord == Dropped(word, drop[..i])
    {
      assert Dropped(word, drop[..i + 1]) == (Dropped(word, drop[..i]) || (drop[i] != [] && drop[i] <= word)) by {
        assert drop[..i + 1][i] == drop[i];
        assert forall k :: 0 <= k < i ==> drop[..i + 1][k] == drop[..i][k];
      }
      if drop[i] != [] && drop[i] <= word {
        filterWord := true;
      }
    }
    assert drop[..|drop|] == drop;
  }

  method FilterFields(name: string, logsDrop: seq<string>, plainDrop: seq<string>) returns (line: string)
    ensures line == Filtered(name, logsDrop, plainDrop)
  {
    var words := Strings.Split(name, ',');
    if Contains(name, MARKER) {
      line := FilterLogs(words, logsDrop);
    } else {
      var kept := [];
      for i := 0 to |words|
        invariant kept == Kept(words[..i], plainDrop)
      {
        var filterWord := IsDropped(words[i], plainDrop);
        KeptSnoc(words, i, plainDrop);
        if !filterWord {
          kept := kept + [words[i]];
        }
      }
      assert words[..|words|] == words;
      line := Strings.Join(kept, ',');
    }
  }

  method FilterLogs(words: seq<string>, drop: seq<string>) returns (line: string)
    requires words != []
    ensures line == LogsLine(words, words[|words| - 1], drop)
  {
    ghost var last := words[|words| - 1];
    line := [];
    for i := 0 to |words|
      invariant line == LogsLine(words[..i], last, drop)
    {
      LogsSnoc(words, i, last, drop);
      var filterWord := IsDropped(words[i], drop);
      if !filterWord {
        line := line + Replaced(words[i]);
        if words[i] != words[|words| - 1] {
          line := line + [','];
        }
      }
    }
    assert words[..|words|] == words;
  }

  lemma {:induction false} KeptConcat(a: seq<string>, b: seq<string>, drop: seq<string>)
    ensures Kept(a + b, drop) == Kept(a, drop) + Kept(b, drop)
    decreases |a|
  {
    if a == [] {
      assert a + b == b;
    } else {
      KeptConcat(a[1..], b, drop);
      assert (a + b)[1..] == a[1..] + b;
      var x := if Dropped(a[0], drop) then [] else [a[0]];
      var y, z := Kept(a[1..], drop), Kept(b, drop);
      assert x + (y + z) == (x + y) + z;
    }
  }

  lemma KeptSnoc(words: seq<string>, i: nat, drop: seq<string>)
    requires i < |words|
    ensures Kept(words[..i + 1], drop) == Kept(words[..i], drop) + if Dropped(words[i], drop) then [] else [words[i]]
  {
    assert words[..i + 1] == words[..i] + [words[i]];
    KeptConcat(words[..i], [words[i]], drop);
    assert [words[i]][1..] == [];
  }

  lemma LogsSnoc(words: seq<string>, i: nat, last: string, drop: seq<string>)
    requires i < |words|
    ensures var line, w := LogsLine(words[..i], last, drop), words[i];
            LogsLine(words[..i + 1], last, drop) ==
            if Dropped(w, drop) then line else if w == last then line + Replaced(w) else line + Replaced(w) + [',']
  {
    var kept, w := Kept(words[..i], drop), words[i];
    KeptSnoc(words, i, drop);
    if Dropped(w, drop) {
      assert kept + [] == kept;
    } else {
      LineConcat(kept, [w], last);
      assert [w][1..] == [] && Piece(w, last) + [] == Piece(w, last);
    }
  }

  // ---------- Properties ----------

  lemma {:induction false} KeptIs(words: seq<string>, drop: seq<string>)
    ensures forall w :: w in Kept(words, drop) <==> w in words && !Dropped(w, drop)
    decreases |words|
  {
    if words != [] {
      KeptIs(words[1..], drop);
    }
  }

  /** The kept words stand in their order, each as often as in the name if it is not dropped. */
  lemma {:induction false} KeptExactly(words: seq<string>, drop: seq<string>)
    ensures Lists.Subsequence(Kept(words, drop), words)
    ensures forall w :: multiset(Kept(words, drop))[w] == if Dropped(w, drop) then 0 else multiset(words)[w]
    decreases |words|
  {
    if words != [] {
      KeptExactly(words[1..], drop);
      assert words == [words[0]] + words[1..];
      if Dropped(words[0], drop) {
        assert Kept(words, drop) == Kept(words[1..], drop);
      }
    }
  }

  /** Without a logs folder in it, a name is the comma-separated list of its kept words. */
  lemma PlainForm(words: seq<string>, logsDrop: seq<string>, plainDrop: seq<string>)
    requires words != [] && forall w :: w in words ==> ',' !in w
    requires !Contains(Strings.Join(words, ','), "logs_folder:")
    ensures var line, kept := Filtered(Strings.Join(words, ','), logsDrop, plainDrop), Kept(words, plainDrop);
            && line == Strings.Join(kept, ',') && (kept != [] ==> Strings.Split(line, ',') == kept)
            && Lists.Subsequence(kept, words)
            && forall w :: multiset(kept)[w] == if Dropped(w, plainDrop) then 0 else multiset(words)[w]
  {
    Strings.SplitJoin(words, ',');
    KeptExactly(words, plainDrop);
    KeptIs(words, plainDrop);
    if Kept(words, plainDrop) != [] {
      Strings.SplitJoin(Kept(words, plainDrop), ',');
    }
  }

  lemma {:induction false} KeptAll(words: seq<string>, drop: seq<string>)
    requires forall w :: w in words ==> !Dropped(w, drop)
    ensures Kept(words, drop) == words
    decreases |words|
  {
    if words != [] {
      KeptAll(words[1..], drop);
    }
  }

  /** A part without commas that occurs in a joined list occurs in one of its words. */
  lemma {:induction false} ContainsWord(words: seq<string>, part: string)
    requires part != [] && ',' !in part && Contains(Strings.Join(words, ','), part)
    ensures exists w :: w in words && Contains(w, part)
    decreases |words|
  {
    if |words| == 1 {
      assert words[0] in words;
    } else if |words| > 1 {
      var rest := Strings.Join(words[1..], ',');
      SplitContains(words[0], rest, part);
      if Contains(words[0], part) {
        assert words[0] in words;
      } else {
        ContainsWord(words[1..], part);
        var w :| w in words[1..] && Contains(w, part);
        assert w in words;
      }
    }
  }

  lemma SplitContains(a: string, b: string, part: string)
    requires part != [] && ',' !in part && Contains(a + [','] + b, part)
    ensures Contains(a, part) || Contains(b, part)
  {
    var s, left := a + [','] + b, a + [','];
    var i :| 0 <= i <= |s| && OccursAt(s, part, i);
    var n := |part|;
    assert s[|a|] == ',';
    forall y | i <= y < i + n ensures s[y] != ',' {
      assert part[y - i] == s[y];
    }
    if i + n <= |a| {
      assert s[i..i + n] == a[i..i + n];
      assert OccursAt(a, part, i);
    } else {
      SliceRight(left, b, i - |left|, n);
      assert OccursAt(b, part, i - |left|);
    }
  }

  lemma SliceRight(a: string, b: string, k: nat, n: nat)
    requires k + n <= |b|
    ensures (a + b)[|a| + k..|a| + k + n] == b[k..k + n]
  {
  }

  lemma ContainsEither(a: string, b: string, part: string)
    requires Contains(a, part) || Contains(b, part)
    ensures Contains(a + [','] + b, part)
  {
    var s := a + [','] + b;
    if Contains(a, part) {
      var i :| 0 <= i <= |a| && OccursAt(a, part, i);
      assert s[i..i + |part|] == a[i..i + |part|];
      assert OccursAt(s, part, i);
    } else {
      var i :| 0 <= i <= |b| && OccursAt(b, part, i);
      SliceRight(a + [','], b, i, |part|);
      assert OccursAt(s, part, |a| + 1 + i);
    }
  }

  lemma {:induction false} WordContained(words: seq<string>, w: string, part: string)
    requires w in words && Contains(w, part)
    ensures Contains(Strings.Join(words, ','), part)
    decreases |words|
  {
    if |words| > 1 {
      if w != words[0] {
        WordContained(words[1..], w, part);
      }
      ContainsEither(words[0], Strings.Join(words[1..], ','), part);
    }
  }

  /** Filtering a name of the plain form a second time changes nothing. */
  lemma FilteredTwice(name: string, logsDrop: seq<string>, plainDrop: seq<string>)
    requires !Contains(name, MARKER)
    ensures var f := Filtered(name, logsDrop, plainDrop);
            !Contains(f, MARKER) && Filtered(f, logsDrop, plainDrop) == f
  {
    var words := Strings.Split(name, ',');
    var kept := Kept(words, plainDrop);
    var f := Strings.Join(kept, ',');
    KeptIs(words, plainDrop);
    Strings.SplitParts(name, ',');
    if Contains(f, MARKER) {
      ContainsWord(kept, MARKER);
      var w :| w in kept && Contains(w, MARKER);
      WordContained(words, w, MARKER);
    }
    if kept == [] {
      assert Strings.Split(f, ',') == [[]];
      assert !Dropped([], plainDrop);
      KeptAll([[]], plainDrop);
    } else {
      Strings.SplitJoin(kept, ',');
      KeptAll(kept, plainDrop);
    }
  }

  // ---------- The "logs_folder:" form ----------

  lemma {:induction false} ReplacedShape(word: string)
    ensures |Replaced(word)| == |word|
    ensures ',' !in word ==> ',' !in Replaced(word)
    decreases |word|
  {
    if word != [] && word[0] != ':' {
      ReplacedShape(word[1..]);
    }
  }

  /** The first colon, if there is one, becomes an equals sign. */
  lemma {:induction false} ReplacedAt(word: string, i: nat)
    requires i <= |word| && ':' !in word[..i] && (i < |word| ==> word[i] == ':')
    ensures Replaced(word) == if i < |word| then word[..i] + ['='] + word[i + 1..] else word
    decreases i
  {
    if i > 0 {
      assert word[1..][..i - 1] == word[..i][1..];
      ReplacedAt(word[1..], i - 1);
      assert word == [word[0]] + word[1..];
    }
  }

  function Commas(s: string): nat {
    if s == [] then 0 else (if s[0] == ',' then 1 else 0) + Commas(s[1..])
  }

  lemma {:induction false} CommasConcat(a: string, b: string)
    ensures Commas(a + b) == Commas(a) + Commas(b)
    decreases |a|
  {
    if a == [] {
      assert a + b == b;
    } else {
      CommasConcat(a[1..], b);
      assert (a + b)[1..] == a[1..] + b;
    }
  }

  lemma {:induction false} CommasNone(a: string)
    requires ',' !in a
    ensures Commas(a) == 0
    decreases |a|
  {
    if a != [] {
      CommasNone(a[1..]);
    }
  }

  /** The number of words that are followed by a comma. */
  function Others(words: seq<string>, last: string): (n: nat)
    ensures n <= |words| && (last !in words ==> n == |words|) && (last in words ==> n < |words|)
  {
    if words == [] then 0 else (if words[0] != last then 1 else 0) + Others(words[1..], last)
  }

  ghost predicate Plain(words: seq<string>) {
    forall i :: 0 <= i < |words| ==> ',' !in words[i]
  }

  lemma {:induction false} LineCommas(words: seq<string>, last: string)
    requires Plain(words)
    ensures Commas(Line(words, last)) == Others(words, last)
    decreases |words|
  {
    if words != [] {
      var w, c := Replaced(words[0]), if words[0] != last then [','] else [];
      LineCommas(words[1..], last);
      ReplacedShape(words[0]);
      CommasNone(w);
      CommasConcat(w + c, Line(words[1..], last));
      CommasConcat(w, c);
    }
  }

  lemma {:induction false} LineSame(words: seq<string>, last: string, last': string)
    requires last !in words && last' !in words
    ensures Line(words, last) == Line(words, last')
    decreases |words|
  {
    if words != [] {
      LineSame(words[1..], last, last');
    }
  }

  lemma {:induction false} LineConcat(a: seq<string>, b: seq<string>, last: string)
    ensures Line(a + b, last) == Line(a, last) + Line(b, last)
    decreases |a|
  {
    if a == [] {
      assert a + b == b;
    } else {
      LineConcat(a[1..], b, last);
      assert (a + b)[1..] == a[1..] + b;
      var w, x, y := Piece(a[0], last), Line(a[1..], last), Line(b, last);
      assert w + (x + y) == w + x + y;
    }
  }

  ghost predicate AllCommas(s: string) {
    forall i :: 0 <= i < |s| ==> s[i] == ','
  }

  ghost predicate Blank(words: seq<string>) {
    forall i :: 0 <= i < |words| ==> words[i] == []
  }

  lemma {:induction false} BlankLine(words: seq<string>, last: string)
    requires Blank(words)
    ensures AllCommas(Line(words, last))
    decreases |words|
  {
    if words != [] {
      BlankLine(words[1..], last);
    }
  }

  lemma {:induction false} RStripCut(a: string, b: string)
    requires AllCommas(b) && (a == [] || a[|a| - 1] != ',')
    ensures RStripCommas(a + b) == a
    decreases |b|
  {
    if b == [] {
      assert a + b == a;
    } else {
      RStripCut(a, b[..|b| - 1]);
      assert (a + b)[..|a + b| - 1] == a + b[..|b| - 1];
    }
  }

  /** What is left of a line: up to the last word that is not empty. */
  lemma LineStripped(words: seq<string>, last: string, j: nat)
    requires j < |words| && words[j] != [] && ',' !in words[j] && Blank(words[j + 1..])
    ensures RStripCommas(Line(words, last)) == Line(words[..j], last) + Replaced(words[j])
  {
    var w, tail := Replaced(words[j]), Line(words[j + 1..], last);
    var c := if words[j] != last then [','] else [];
    assert words == words[..j] + words[j..] && words[j..][1..] == words[j + 1..];
    LineConcat(words[..j], words[j..], last);
    ReplacedShape(words[j]);
    BlankLine(words[j + 1..], last);
    var head := Line(words[..j], last) + w;
    assert Line(words, last) == head + (c + tail);
    assert head[|head| - 1] == w[|w| - 1];
    RStripCut(head, c + tail);
  }

  /** A word equal to the last one of the name stands before another word, and the comma between is missing. */
  ghost predicate Fuses(kept: seq<string>, last: string) {
    exists i, j :: 0 <= i < j < |kept| && kept[i] == last && kept[j] != []
  }

  lemma {:induction false} LastWord(words: seq<string>) returns (j: nat)
    requires !Blank(words)
    ensures j < |words| && words[j] != [] && Blank(words[j + 1..])
    decreases |words|
  {
    var n := |words| - 1;
    if words[n] != [] {
      j := n;
    } else {
      assert !Blank(words[..n]) by {
        var i :| 0 <= i < |words| && words[i] != [];
        assert words[..n][i] != [];
      }
      j := LastWord(words[..n]);
      assert words[j + 1..] == words[..n][j + 1..] + [[]];
    }
  }

  /** Both lines agree if and only if no words are fused. */
  lemma LineExact(kept: seq<string>, last: string)
    requires Plain(kept)
    ensures RStripCommas(Line(kept, last)) == RStripCommas(Line(kept, [','])) <==> !Fuses(kept, last)
  {
    if Blank(kept) {
      BlankLine(kept, last);
      BlankLine(kept, [',']);
      RStripCut([], Line(kept, last));
      RStripCut([], Line(kept, [',']));
      assert [] + Line(kept, last) == Line(kept, last) && [] + Line(kept, [',']) == Line(kept, [',']);
    } else {
      var j := LastWord(kept);
      LineStripped(kept, last, j);
      LineStripped(kept, [','], j);
      StrippedExact(kept, last, j);
    }
  }

  lemma StrippedExact(kept: seq<string>, last: string, j: nat)
    requires Plain(kept) && j < |kept| && kept[j] != [] && Blank(kept[j + 1..])
    ensures Line(kept[..j], last) + Replaced(kept[j]) == Line(kept[..j], [',']) + Replaced(kept[j]) <==>
            !Fuses(kept, last)
  {
    var head := kept[..j];
    assert ',' in [','];
    assert forall i :: 0 <= i < |kept| ==> kept[i] != [','];
    if last in head {
      var i :| 0 <= i < j && kept[i] == last;
      assert Fuses(kept, last);
      LineCommas(head, last);
      LineCommas(head, [',']);
      CommasConcat(Line(head, last), Replaced(kept[j]));
      CommasConcat(Line(head, [',']), Replaced(kept[j]));
    } else {
      LineSame(head, last, [',']);
      assert forall i :: 0 <= i < j ==> kept[i] == head[i] != last;
      forall i, k | 0 <= i < k < |kept| && kept[i] == last ensures kept[k] == [] {
        assert kept[j + 1..][k - j - 1] == [];
      }
    }
  }

  /** The line is what joining the kept words would give, up to trailing commas, if and only if no kept
      word that equals the name's last word has a non-empty kept word behind it. */
  lemma LogsFormExact(name: string, drop: seq<string>)
    ensures var words := Strings.Split(name, ',');
            var last, kept := words[|words| - 1], Kept(words, drop);
            RStripCommas(LogsLine(words, last, drop)) == RStripCommas(Joined(kept)) <==> !Fuses(kept, last)
  {
    var words := Strings.Split(name, ',');
    var last, kept := words[|words| - 1], Kept(words, drop);
    Strings.SplitParts(name, ',');
    KeptIs(words, drop);
    assert Plain(kept) by {
      forall i | 0 <= i < |kept| ensures ',' !in kept[i] { assert kept[i] in kept; }
    }
    LineExact(kept, last);
    LineJoined(kept);
  }

  /** The kept words with ":" replaced, joined. */
  function Joined(kept: seq<string>): string {
    if kept == [] then []
    else if |kept| == 1 then Replaced(kept[0])
    else Replaced(kept[0]) + [','] + Joined(kept[1..])
  }

  lemma {:induction false} LineIsJoined(kept: seq<string>)
    requires Plain(kept) && kept != []
    ensures Line(kept, [',']) == Joined(kept) + [',']
    decreases |kept|
  {
    assert ',' in [','] && ',' !in kept[0];
    if |kept| > 1 {
      LineIsJoined(kept[1..]);
    }
  }

  lemma LineJoined(kept: seq<string>)
    requires Plain(kept)
    ensures RStripCommas(Line(kept, [','])) == RStripCommas(Joined(kept))
  {
    if kept != [] {
      LineIsJoined(kept);
      assert (Joined(kept) + [','])[..|Joined(kept)|] == Joined(kept);
    }
  }

  // ---------- Names that come out fused ----------

  /** Four words in one name. */
  function FourWords(a: string, b: string, c: string, d: string): string {
    a + [','] + (b + [','] + (c + [','] + d))
  }

  lemma FourSplit(a: string, b: string, c: string, d: string)
    requires Plain([a, b, c, d])
    ensures Strings.Split(FourWords(a, b, c, d), ',') == [a, b, c, d]
  {
    var words := [a, b, c, d];
    assert words[0] == a && words[1] == b && words[2] == c && words[3] == d;
    Strings.SplitAt(a, b + [','] + (c + [','] + d), ',');
    Strings.SplitAt(b, c + [','] + d, ',');
    Strings.SplitAt(c, d, ',');
    Strings.SplitNone(d, ',');
  }

  lemma KeptThird(a: string, b: string, c: string, d: string, drop: seq<string>)
    requires !Dropped(a, drop) && !Dropped(b, drop) && Dropped(c, drop) && !Dropped(d, drop)
    ensures Kept([a, b, c, d], drop) == [a, b, d]
  {
    KeptSnoc([a, b, c, d], 0, drop);
    KeptSnoc([a, b, c, d], 1, drop);
    KeptSnoc([a, b, c, d], 2, drop);
    KeptSnoc([a, b, c, d], 3, drop);
    assert [a, b, c, d][..4] == [a, b, c, d];
  }

  lemma LineThree(a: string, w: string)
    requires a != w
    ensures Line([a, w, w], w) == Replaced(a) + [','] + (Replaced(w) + Replaced(w))
  {
    LineConcat([a], [w, w], w);
    LineConcat([w], [w], w);
    assert [a, w, w] == [a] + [w, w] && [w, w] == [w] + [w];
    LineOne(a, w);
    LineOne(w, w);
  }

  lemma LineOne(a: string, last: string)
    ensures Line([a], last) == Piece(a, last)
  {
    assert [a][1..] == [];
    assert Piece(a, last) + [] == Piece(a, last);
  }

  /** For all words: a name of the logs form whose last parameter also stands before the logs folder comes out
      with the two run together. */
  lemma FusedFilter(a: string, w: string, logs: string, logsDrop: seq<string>, plainDrop: seq<string>)
    requires Plain([a, w, logs, w]) && a != w && w != [] && MARKER <= logs
    requires !Dropped(a, logsDrop) && !Dropped(w, logsDrop) && Dropped(logs, logsDrop)
    ensures RStripCommas(Filtered(FourWords(a, w, logs, w), logsDrop, plainDrop)) ==
            Replaced(a) + [','] + (Replaced(w) + Replaced(w))
  {
    var name, line := FourWords(a, w, logs, w), Replaced(a) + [','] + (Replaced(w) + Replaced(w));
    assert ',' !in [a, w, logs, w][1];
    FourSplit(a, w, logs, w);
    FourContains(a, w, logs, w);
    KeptThird(a, w, logs, w, logsDrop);
    LineThree(a, w);
    ReplacedShape(w);
    assert line[|line| - 1] == Replaced(w)[|w| - 1];
    RStripCut(line, []);
    assert line + [] == line;
  }

  lemma FourContains(a: string, b: string, c: string, d: string)
    requires MARKER <= c
    ensures Contains(FourWords(a, b, c, d), MARKER)
  {
    assert OccursAt(c, MARKER, 0);
    ContainsEither(c, d, MARKER);
    ContainsEither(b, c + [','] + d, MARKER);
    ContainsEither(a, b + [','] + (c + [','] + d), MARKER);
  }
}
