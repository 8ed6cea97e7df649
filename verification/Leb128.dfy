/**
 Collection ids on the wire: unsigned LEB128 (section 7.6 of DWARF Version 5), as written by
 `_encodeCollectionId` and read back by `decodeCollectionID` (lib/mc_bin_client.py).
 */
module Leb128 {
  import opened Bytes

  datatype Decoded = Decoded(cid: nat, key: seq<byte>) | IndexError | NoStopByte

  function Pow2(n: nat): (p: nat)
    ensures p > 0
  {
    if n == 0 then 1 else 2 * Pow2(n - 1)
  }

  /** Bitwise or of two unbounded naturals, as Python's `|`. */
  function BitOr(a: nat, b: nat): nat
    decreases a + b
  {
    if a == 0 then b else if b == 0 then a
    else 2 * BitOr(a / 2, b / 2) + (if a % 2 == 1 || b % 2 == 1 then 1 else 0)
  }

  /** Python's `b << n`. */
  function ShiftLeft(b: nat, n: nat): nat {
    if n == 0 then b else 2 * ShiftLeft(b, n - 1)
  }

  lemma BitOrEven(a: nat, h: nat)
    ensures BitOr(a, 2 * h) == 2 * BitOr(a / 2, h) + a % 2
  {
  }

  /** Or-ing in bits above everything already set is addition. */
  lemma {:induction false} BitOrAbove(a: nat, b: nat, n: nat)
    requires a < Pow2(n)
    ensures BitOr(a, ShiftLeft(b, n)) == a + ShiftLeft(b, n)
    decreases n
  {
    if n > 0 {
      BitOrEven(a, ShiftLeft(b, n - 1));
      BitOrAbove(a / 2, b, n - 1);
    }
  }

  /** The reference encoding: seven bits a byte, low bits first, the top bit set on all but the last. */
  function Leb(n: nat): (s: seq<byte>)
    ensures s != []
  {
    if n < 128 then [n] else [128 + n % 128] + Leb(n / 128)
  }

  /** The byte string `[c, c, .., c, stop]`: every byte but the last carries the continue bit. */
  predicate Terminated(s: seq<byte>) {
    s != [] && s[|s| - 1] < 128 && forall i :: 0 <= i < |s| - 1 ==> s[i] >= 128
  }

  /** The number seven-bit groups spell, low group first. */
  function Groups(s: seq<byte>): nat {
    if s == [] then 0 else s[0] % 128 + 128 * Groups(s[1..])
  }

  /** Index of the first byte at or after `i` without the continue bit, or `|s|`. */
  function StopAt(s: seq<byte>, i: nat): (k: nat)
    requires i <= |s|
    ensures i <= k <= |s|
    ensures k < |s| ==> s[k] < 128
    ensures forall j :: i <= j < k ==> s[j] >= 128
    decreases |s| - i
  {
    if i == |s| || s[i] < 128 then i else StopAt(s, i + 1)
  }

  /** What decoding a whole key buffer must give. A lone continue byte is accepted with an empty
      key, and a multi-byte id that ends the buffer is refused although its stop byte is there. */
  function Decode(data: seq<byte>): Decoded {
    if data == [] then IndexError
    else if data[0] < 128 then Decoded(data[0], data[1..])
    else if |data| == 1 then Decoded(data[0] - 128, [])
    else
      var k := StopAt(data, 1);
      if k >= |data| - 1 then NoStopByte
      else Decoded(Groups(data[..k + 1]), data[k + 1..])
  }

  /** Masking with 0xFF instead of 0x7F is harmless: the extra bit is the continue bit, or clear. */
  lemma MaskedByte(n: nat)
    ensures n >= 128 ==> (if n % 256 >= 128 then n % 256 else n % 256 + 128) == 128 + n % 128
    ensures n < 128 ==> n % 256 == n
  {
    assert n % 256 % 128 == n % 128;
  }

  lemma NextByte(n: nat)
    ensures if n / 128 > 0 then Leb(n) == [if n % 256 >= 128 then n % 256 else n % 256 + 128] + Leb(n / 128)
            else Leb(n) == [n % 256]
  {
    MaskedByte(n);
  }

  method EncodeCollectionId(collectionId: nat, key: seq<byte>) returns (r: seq<byte>)
    ensures r == Leb(collectionId) + key
  {
    NextByte(0);
    hide Leb;
    var collection: nat := collectionId;
    var output: seq<byte> := [0];
    ghost var done: seq<byte> := [];
    while collection > 0
      invariant collection > 0 ==> output == done + [0] && Leb(collectionId) == done + Leb(collection)
      invariant collection == 0 ==> output == Leb(collectionId)
    {
      var b: nat := collection % 256;
      NextByte(collection);
      collection := collection / 128;
      if collection > 0 {
        b := if b >= 128 then b else b + 128;
        output := output[|output| - 1 := b];
        assert done + ([b] + Leb(collection)) == (done + [b]) + Leb(collection);
        done := done + [b];
        assert output == done;
        output := output + [0];
      } else {
        output := output[|output| - 1 := b];
        assert output == done + [b];
      }
    }
    r := output + key;
  }

  lemma SevenMore(b: nat, n: nat)
    ensures ShiftLeft(b, n + 7) == 128 * ShiftLeft(b, n)
    ensures Pow2(n + 7) == 128 * Pow2(n)
  {
    assert ShiftLeft(b, n + 7) == 2 * ShiftLeft(b, n + 6) == 4 * ShiftLeft(b, n + 5) == 8 * ShiftLeft(b, n + 4);
    assert ShiftLeft(b, n + 4) == 2 * ShiftLeft(b, n + 3) == 4 * ShiftLeft(b, n + 2) == 8 * ShiftLeft(b, n + 1);
    assert Pow2(n + 7) == 2 * Pow2(n + 6) == 4 * Pow2(n + 5) == 8 * Pow2(n + 4);
    assert Pow2(n + 4) == 2 * Pow2(n + 3) == 4 * Pow2(n + 2) == 8 * Pow2(n + 1);
  }

  lemma {:induction false} GroupsSnoc(s: seq<byte>, b: byte)
    ensures Groups(s + [b]) == Groups(s) + ShiftLeft(b % 128, 7 * |s|)
    ensures Groups(s) < Pow2(7 * |s|)
  {
    if s == [] {
      assert (s + [b])[1..] == [];
    } else {
      GroupsSnoc(s[1..], b);
      assert (s + [b])[1..] == s[1..] + [b];
      SevenMore(b % 128, 7 * |s| - 7);
    }
  }

  /** One round of the decoding loop: or-ing in the next seven bits extends the number spelled so far. */
  lemma OrNextGroup(data: seq<byte>, i: nat)
    requires i < |data|
    ensures BitOr(Groups(data[..i]), ShiftLeft(data[i] % 128, 7 * i)) == Groups(data[..i + 1])
  {
    assert data[..i + 1] == data[..i] + [data[i]];
    GroupsSnoc(data[..i], data[i]);
    BitOrAbove(Groups(data[..i]), data[i] % 128, 7 * i);
  }

  method DecodeCollectionId(data: seq<byte>) returns (r: Decoded)
    ensures r == Decode(data)
  {
    if data == [] {
      return IndexError;
    }
    var cid: nat := data[0] % 128;
    var end := 1;
    if data[0] >= 128 {
      var shift, i, stopped := 7, 1, false;
      while i < |data| && !stopped
        invariant 1 <= i <= |data|
        invariant !stopped ==> end == if i == 1 then 1 else i - 1
        invariant stopped ==> end == i < |data| && data[i] < 128
        invariant shift == 7 * i && cid == Groups(data[..if stopped then i + 1 else i])
        invariant forall j :: 1 <= j < i ==> data[j] >= 128
        decreases |data| - i, !stopped
      {
        end := i;
        OrNextGroup(data, i);
        cid := BitOr(cid, ShiftLeft(data[end] % 128, shift));
        if data[end] < 128 {
          stopped := true;
        } else {
          shift := shift + 7;
          i := i + 1;
        }
      }
      end := end + 1;
      if end == |data| {
        return NoStopByte;
      }
    }
    return Decoded(cid, if end <= |data| then data[end..] else []);
  }

  lemma {:induction false} LebTerminated(n: nat)
    ensures Terminated(Leb(n))
    ensures Groups(Leb(n)) == n
  {
    if n >= 128 {
      LebTerminated(n / 128);
      assert Leb(n)[1..] == Leb(n / 128);
    }
  }

  /** Decoding undoes encoding exactly when the id is below 128 or the key is non-empty. */
  lemma DecodeEncode(n: nat, key: seq<byte>)
    ensures Decode(Leb(n) + key) == Decoded(n, key) <==> n < 128 || key != []
    ensures n >= 128 && key == [] ==> Decode(Leb(n) + key) == NoStopByte
  {
    LebTerminated(n);
    var e := Leb(n);
    var data := e + key;
    if n >= 128 {
      var k := StopAt(data, 1);
      assert data[|e| - 1] == e[|e| - 1] < 128;
      assert forall j :: 0 <= j < |e| ==> data[j] == e[j];
      assert k == |e| - 1;
      assert data[..k + 1] == e && data[k + 1..] == key;
    } else {
      assert data[1..] == key;
    }
  }

  /** A number in three groups: low bits first, the top bit set on the first two. */
  lemma KnownEncoding(n: nat)
    requires n == 624485
    ensures Leb(n) == [0xe5, 0x8e, 0x26]
  {
    assert Leb(n / 128) == [0x8e] + Leb(n / 128 / 128);
  }

  /** No encoding is a proper prefix of another. */
  lemma PrefixFree(a: nat, b: nat)
    requires Leb(a) <= Leb(b)
    ensures a == b
  {
    LebTerminated(a);
    LebTerminated(b);
    var k := |Leb(a)| - 1;
    assert Leb(b)[k] == Leb(a)[k];
    assert Leb(a) == Leb(b);
  }

  /** Every terminated spelling of a number is at least as long as its encoding. */
  lemma {:induction false} Minimal(s: seq<byte>)
    requires Terminated(s)
    ensures |Leb(Groups(s))| <= |s|
    decreases |s|
  {
    if |s| == 1 {
      assert s[1..] == [];
    } else {
      Minimal(s[1..]);
      var n := Groups(s);
      assert n / 128 == Groups(s[1..]);
    }
  }
}
