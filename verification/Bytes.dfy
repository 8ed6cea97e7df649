/** Byte strings and the big-endian `struct` formats every wire message is built from. */
module Bytes {

  type byte = x: int | 0 <= x < 256

  /** A `struct` format: the widths, in bytes, of its unsigned big-endian fields. */
  datatype Format = End | Field(width: nat, rest: Format)

  function Pow256(n: nat): (p: nat)
    ensures p > 0
  {
    if n == 0 then 1 else 256 * Pow256(n - 1)
  }

  /** The last `n` bytes of `v`, most significant first. */
  function PackInt(n: nat, v: nat): (s: seq<byte>)
    ensures |s| == n
  {
    if n == 0 then [] else PackInt(n - 1, v / 256) + [v % 256]
  }

  function UnpackInt(s: seq<byte>): nat {
    if s == [] then 0 else 256 * UnpackInt(s[..|s| - 1]) + s[|s| - 1]
  }

  function Size(f: Format): nat {
    match f
    case End => 0
    case Field(w, rest) => w + Size(rest)
  }

  function Arity(f: Format): nat {
    match f
    case End => 0
    case Field(_, rest) => 1 + Arity(rest)
  }

  /** `struct.pack` raises unless there is one value per field and each fits its width. */
  predicate Fits(f: Format, vs: seq<nat>) {
    match f
    case End => vs == []
    case Field(w, rest) => vs != [] && vs[0] < Pow256(w) && Fits(rest, vs[1..])
  }

  function Pack(f: Format, vs: seq<nat>): (s: seq<byte>)
    requires Fits(f, vs)
    ensures |s| == Size(f)
  {
    match f
    case End => []
    case Field(w, rest) => PackInt(w, vs[0]) + Pack(rest, vs[1..])
  }

  function Unpack(f: Format, s: seq<byte>): (vs: seq<nat>)
    requires |s| == Size(f)
    ensures |vs| == Arity(f)
  {
    match f
    case End => []
    case Field(w, rest) => [UnpackInt(s[..w])] + Unpack(rest, s[w..])
  }

  lemma {:induction false} UnpackPackInt(n: nat, v: nat)
    requires v < Pow256(n)
    ensures UnpackInt(PackInt(n, v)) == v
  {
    if n > 0 {
      UnpackPackInt(n - 1, v / 256);
      assert PackInt(n, v)[..n - 1] == PackInt(n - 1, v / 256);
    }
  }

  lemma {:induction false} PackUnpackInt(s: seq<byte>)
    ensures UnpackInt(s) < Pow256(|s|)
    ensures PackInt(|s|, UnpackInt(s)) == s
  {
    if s != [] {
      var front := s[..|s| - 1];
      PackUnpackInt(front);
      assert UnpackInt(s) / 256 == UnpackInt(front);
      assert s == front + [s[|s| - 1]];
    }
  }

  /** Unpacking undoes packing, for every format and all values that fit it. */
  lemma {:induction false} UnpackPack(f: Format, vs: seq<nat>)
    requires Fits(f, vs)
    ensures Unpack(f, Pack(f, vs)) == vs
  {
    match f {
      case End =>
      case Field(w, rest) =>
        UnpackPackInt(w, vs[0]);
        UnpackPack(rest, vs[1..]);
        var s := Pack(f, vs);
        assert s[..w] == PackInt(w, vs[0]) && s[w..] == Pack(rest, vs[1..]);
    }
  }

  /** Packing undoes unpacking: no two byte strings of a format read the same. */
  lemma {:induction false} PackUnpack(f: Format, s: seq<byte>)
    requires |s| == Size(f)
    ensures Fits(f, Unpack(f, s))
    ensures Pack(f, Unpack(f, s)) == s
  {
    match f {
      case End =>
      case Field(w, rest) =>
        PackUnpackInt(s[..w]);
        PackUnpack(rest, s[w..]);
        var vs := Unpack(f, s);
        assert vs[1..] == Unpack(rest, s[w..]);
        assert s == s[..w] + s[w..];
    }
  }

  // ---------- Where the numbers stand ----------

  /** Unpacking, with each field read by `num`. */
  function UnpackWith(num: seq<byte> -> nat, f: Format, s: seq<byte>): (vs: seq<nat>)
    requires |s| == Size(f)
    ensures |vs| == Arity(f)
  {
    match f
    case End => []
    case Field(w, rest) => [num(s[..w])] + UnpackWith(num, rest, s[w..])
  }

  lemma {:induction false} UnpackIs(f: Format, s: seq<byte>)
    requires |s| == Size(f)
    ensures Unpack(f, s) == UnpackWith(UnpackInt, f, s)
    decreases f
  {
    if f.Field? {
      UnpackIs(f.rest, s[f.width..]);
    }
  }

  lemma EndAt(num: seq<byte> -> nat, s: seq<byte>, i: nat)
    requires i <= |s|
    ensures Size(End) == 0 && UnpackWith(num, End, s[i..i]) == []
  {
  }

  /** The first number of a format that begins at `i`, and the others behind it. */
  lemma ConsAt(num: seq<byte> -> nat, w: nat, rest: Format, s: seq<byte>, i: nat)
    requires i + w + Size(rest) <= |s|
    ensures Size(Field(w, rest)) == w + Size(rest)
    ensures UnpackWith(num, Field(w, rest), s[i..i + w + Size(rest)]) ==
            [num(s[i..i + w])] + UnpackWith(num, rest, s[i + w..i + w + Size(rest)])
  {
    var part := s[i..i + w + Size(rest)];
    assert part[..w] == s[i..i + w];
    assert part[w..] == s[i + w..i + w + Size(rest)];
  }

  lemma ConsThreeAt(num: seq<byte> -> nat, x: nat, y: nat, z: nat, rest: Format, s: seq<byte>, i: nat, end: nat)
    requires i + x + y + z + Size(rest) == end <= |s|
    ensures Size(Field(x, Field(y, Field(z, rest)))) == x + y + z + Size(rest)
    ensures UnpackWith(num, Field(x, Field(y, Field(z, rest))), s[i..end]) ==
            [num(s[i..i + x]), num(s[i + x..i + x + y]), num(s[i + x + y..i + x + y + z])]
            + UnpackWith(num, rest, s[i + x + y + z..end])
  {
    hide UnpackWith, Size;
    ConsAt(num, z, rest, s, i + x + y);
    ConsAt(num, y, Field(z, rest), s, i + x);
    ConsAt(num, x, Field(y, Field(z, rest)), s, i);
  }

  /** Multiplying by 256, n times. */
  function Shifted(x: nat, n: nat): nat {
    if n == 0 then x else 256 * Shifted(x, n - 1)
  }

  /** Numbers are read with their most significant byte first. */
  lemma {:induction false} BigEndian(a: seq<byte>, b: seq<byte>)
    ensures UnpackInt(a + b) == Shifted(UnpackInt(a), |b|) + UnpackInt(b)
    decreases |b|
  {
    if b == [] {
      assert a + b == a;
    } else {
      BigEndian(a, b[..|b| - 1]);
      assert (a + b)[..|a + b| - 1] == a + b[..|b| - 1];
    }
  }

  lemma OneByte(b: byte)
    ensures UnpackInt([b]) == b
  {
    assert [b][..0] == [];
  }
}
