/** The string operations that the report and loader code is written with. */
module Strings {
  import opened Wrappers

  // ---------- Splitting on one character ----------

  /** `s.split(c)`: never empty. */
  function Split(s: string, c: char): (r: seq<string>)
    ensures |r| > 0
  {
    if s == [] then [[]]
    else
      var r := Split(s[1..], c);
      if s[0] == c then [[]] + r else [[s[0]] + r[0]] + r[1..]
  }

  /** `c.join(xs)`. */
  function Join(xs: seq<string>, c: char): string {
    if xs == [] then []
    else if |xs| == 1 then xs[0]
    else xs[0] + [c] + Join(xs[1..], c)
  }

  /** Text before the first separator is the first part. */
  lemma {:induction false} SplitAt(a: string, b: string, c: char)
    requires c !in a
    ensures Split(a + [c] + b, c) == [a] + Split(b, c)
    decreases |a|
  {
    if a == [] {
      assert (a + [c] + b)[1..] == b;
    } else {
      assert (a + [c] + b)[1..] == a[1..] + [c] + b;
      SplitAt(a[1..], b, c);
      assert [a[0]] + a[1..] == a;
    }
  }

  lemma {:induction false} SplitNone(a: string, c: char)
    requires c !in a
    ensures Split(a, c) == [a]
    decreases |a|
  {
    if a != [] {
      SplitNone(a[1..], c);
      assert [a[0]] + a[1..] == a;
    }
  }

  lemma {:induction false} SplitParts(s: string, c: char)
    ensures Join(Split(s, c), c) == s
    ensures forall p :: p in Split(s, c) ==> c !in p
    decreases |s|
  {
    if s != [] {
      SplitParts(s[1..], c);
    }
  }

  lemma {:induction false} SplitJoin(xs: seq<string>, c: char)
    requires xs != [] && forall p :: p in xs ==> c !in p
    ensures Split(Join(xs, c), c) == xs
    decreases |xs|
  {
    if |xs| == 1 {
      SplitNone(xs[0], c);
    } else {
      SplitJoin(xs[1..], c);
      SplitAt(xs[0], Join(xs[1..], c), c);
    }
  }

  // ---------- Numbers ----------

  predicate IsDigit(c: char) {
    '0' <= c <= '9'
  }

  predicate AllDigits(s: string) {
    forall i :: 0 <= i < |s| ==> IsDigit(s[i])
  }

  /** ASCII white space. */
  predicate IsSpace(c: char) {
    c == ' ' || '\t' <= c <= '\r'
  }

  function LStrip(s: string): string {
    if s != [] && IsSpace(s[0]) then LStrip(s[1..]) else s
  }

  function RStrip(s: string): string {
    if s != [] && IsSpace(s[|s| - 1]) then RStrip(s[..|s| - 1]) else s
  }

  function Strip(s: string): string {
    RStrip(LStrip(s))
  }

  function Digit(n: nat): char
    requires n < 10
  {
    '0' + n as char
  }

  /** `str(n)` of a number that is not negative. */
  function Str(n: nat): (s: string)
    ensures |s| > 0 && AllDigits(s)
  {
    if n < 10 then [Digit(n)] else Str(n / 10) + [Digit(n % 10)]
  }

  function Value(s: string): nat
    requires AllDigits(s)
  {
    if s == [] then 0 else 10 * Value(s[..|s| - 1]) + (s[|s| - 1] - '0') as nat
  }

  /** `int(s)`, None for its ValueError. */
  function ParseInt(s: string): Option<int> {
    Signed(Strip(s))
  }

  function Signed(t: string): Option<int> {
    if t == [] then None
    else if t[0] == '+' then Unsigned(t[1..], false)
    else if t[0] == '-' then Unsigned(t[1..], true)
    else Unsigned(t, false)
  }

  function Unsigned(u: string, negative: bool): Option<int> {
    if u == [] || !AllDigits(u) then None
    else
      var v: int := Value(u);
      Some(if negative then -v else v)
  }

  lemma {:induction false} ValueStr(n: nat)
    ensures Value(Str(n)) == n
  {
    if n >= 10 {
      ValueStr(n / 10);
      assert Str(n)[..|Str(n)| - 1] == Str(n / 10);
    }
  }

  lemma StrInjective(m: nat, n: nat)
    requires Str(m) == Str(n)
    ensures m == n
  {
    ValueStr(m);
    ValueStr(n);
  }

  predicate Zeros(s: string) {
    forall i :: 0 <= i < |s| ==> s[i] == '0'
  }

  /** Leading zeros do not count. */
  lemma {:induction false} ValueZeros(z: string, s: string)
    requires Zeros(z) && AllDigits(s)
    ensures AllDigits(z + s) && Value(z + s) == Value(s)
    decreases |s| + |z|
  {
    if s != [] {
      ValueZeros(z, s[..|s| - 1]);
      assert (z + s)[..|z + s| - 1] == z + s[..|s| - 1];
    } else if z != [] {
      ValueZeros(z[..|z| - 1], s);
      assert z + s == z && z[..|z| - 1] + s == z[..|z| - 1];
    }
  }

  lemma {:induction false} ZeroValue(s: string)
    requires AllDigits(s) && Value(s) == 0
    ensures Zeros(s)
    decreases |s|
  {
    if s != [] {
      ZeroValue(s[..|s| - 1]);
    }
  }

  /** Only the white space in front of a text without any of its own is stripped. */
  lemma {:induction false} StripText(a: string, s: string)
    requires s != [] && !IsSpace(s[0]) && !IsSpace(s[|s| - 1])
    ensures Strip(a + s) == LStrip(a) + s
    decreases |a|
  {
    if a != [] && IsSpace(a[0]) {
      StripText(a[1..], s);
      assert (a + s)[1..] == a[1..] + s;
    } else {
      assert a + s != [] && (a + s)[0] == if a == [] then s[0] else a[0];
      assert (a + s)[|a + s| - 1] == s[|s| - 1];
    }
  }

  /** Text that may stand before a number without changing what `int` reads: white space, a plus, zeros. */
  predicate Harmless(a: string) {
    var t := LStrip(a);
    Zeros(if t != [] && t[0] == '+' then t[1..] else t)
  }

  lemma UnsignedZeros(z: string, s: string)
    requires Zeros(z) && AllDigits(s) && s != []
    ensures Unsigned(z + s, false) == Some(Value(s))
  {
    ValueZeros(z, s);
  }

  lemma SignedPlain(z: string, s: string)
    requires Zeros(z) && AllDigits(s) && s != []
    ensures Signed(z + s) == Some(Value(s))
  {
    UnsignedZeros(z, s);
    assert IsDigit((z + s)[0]);
  }

  lemma TailConcat(t: string, s: string)
    requires t != []
    ensures (t + s)[0] == t[0] && (t + s)[1..] == t[1..] + s
  {
  }

  lemma SignedPlus(t: string, z: string, s: string)
    requires t != [] && t[0] == '+' && z == t[1..] && Zeros(z) && AllDigits(s) && s != []
    ensures Signed(t + s) == Some(Value(s))
  {
    var v := Value(s);
    assert Unsigned(z + s, false) == Some(v) by { UnsignedZeros(z, s); }
    TailConcat(t, s);
  }

  lemma ParseDigits(a: string, t: string, s: string)
    requires t == LStrip(a) && Zeros(if t != [] && t[0] == '+' then t[1..] else t) && AllDigits(s) && s != []
    ensures ParseInt(a + s) == Some(Value(s))
  {
    StripText(a, s);
    if t != [] && t[0] == '+' {
      SignedPlus(t, t[1..], s);
    } else {
      SignedPlain(t, s);
    }
  }

  lemma HarmlessParse(a: string, n: nat)
    requires Harmless(a)
    ensures ParseInt(a + Str(n)) == Some(n)
  {
    ValueStr(n);
    ParseDigits(a, LStrip(a), Str(n));
  }

  lemma UnsignedOne(u: string, d: char, negative: bool)
    requires IsDigit(d) && Unsigned(u + [d], negative).Some?
    ensures AllDigits(u)
    ensures Unsigned(u + [d], negative).value == (if negative then -1 else 1) * (10 * Value(u) + (d - '0') as nat)
  {
    var w := u + [d];
    assert forall i :: 0 <= i < |u| ==> w[i] == u[i];
    ValueSnoc(u, d);
  }

  lemma ValueSnoc(u: string, d: char)
    requires AllDigits(u + [d]) && AllDigits(u) && IsDigit(d)
    ensures Value(u + [d]) == 10 * Value(u) + (d - '0') as nat
  {
    assert (u + [d])[..|u|] == u;
  }

  /** Reading back 0 and 1 is enough to know that nothing harmful stands before the number. */
  lemma SignedHarmless(t: string)
    requires Signed(t + ['0']) == Some(0) && Signed(t + ['1']) == Some(1)
    ensures Zeros(if t != [] && t[0] == '+' then t[1..] else t)
  {
    if t != [] {
      var signed := t[0] == '+' || t[0] == '-';
      var u, negative := if signed then t[1..] else t, t[0] == '-';
      assert signed ==> (t + ['0'])[1..] == u + ['0'] && (t + ['1'])[1..] == u + ['1'];
      UnsignedOne(u, '0', negative);
      UnsignedOne(u, '1', negative);
      ZeroValue(u);
    }
  }

  lemma ParseHarmless(a: string)
    requires ParseInt(a + Str(0)) == Some(0) && ParseInt(a + Str(1)) == Some(1)
    ensures Harmless(a)
  {
    StripText(a, Str(0));
    StripText(a, Str(1));
    SignedHarmless(LStrip(a));
  }

  lemma Minus(s: string)
    requires s != [] && AllDigits(s)
    ensures Signed(['-'] + s) == Unsigned(s, true)
  {
    assert (['-'] + s)[1..] == s;
  }

  lemma StrayMinus(t: string, s: string)
    requires t != [] && t[0] != '-'
    ensures Signed(t + (['-'] + s)) == None
  {
    var u := ['-'] + s;
    TailConcat(t, u);
    assert (t[1..] + u)[|t| - 1] == '-' && (t + u)[|t|] == '-';
  }

  lemma SignedMinus(t: string, s: string, x: int)
    requires s != [] && AllDigits(s) && Value(s) == -x && (t == [] || t[0] != '-')
    ensures Signed(t + (['-'] + s)) == if t == [] then Some(x) else None
  {
    if t == [] {
      assert t + (['-'] + s) == ['-'] + s;
      Minus(s);
    } else {
      StrayMinus(t, s);
    }
  }

  /** A minus sign is read only when nothing but white space precedes it. */
  lemma NegativeParse(a: string, s: string, x: int)
    requires x < 0 && s == Str(-x) && Harmless(a)
    ensures ParseInt(a + (['-'] + s)) == if LStrip(a) == [] then Some(x) else None
  {
    ValueStr(-x);
    var u := ['-'] + s;
    assert u[0] == '-' && u[|u| - 1] == s[|s| - 1];
    StripText(a, u);
    SignedMinus(LStrip(a), s, x);
  }
}
