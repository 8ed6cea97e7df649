/**
 The table-driven CRC-32 of `crc32_hash` (lib/crc32.py) against the bit-serial definition of
 section 8 of RFC 1952, and the vBucket a key maps to (`_set_vbucket`, lib/mc_bin_client.py).
 */
module Crc32 {
  const POLY: bv32 := 0xedb88320

  /** One shift of the register: the polynomial is folded in when a one bit leaves. */
  function Shift(c: bv32): bv32 {
    if c & 1 == 1 then (c >> 1) ^ POLY else c >> 1
  }

  function Xor(a: bv32, b: bv32): bv32 {
    a ^ b
  }

  function LowBit(x: bv32): bv32 {
    x & 1
  }

  function Half(x: bv32): bv32 {
    x >> 1
  }

  /** Feeding the first `n` bits of `x` to a register `c`: each message bit is added to the bit
      about to leave, then the register shifts. */
  function FeedBits<T>(shift: T -> T, xor: (T, T) -> T, bit: T -> T, half: T -> T, c: T, x: T, n: nat): T
    decreases n
  {
    if n == 0 then c else FeedBits(shift, xor, bit, half, shift(xor(c, bit(x))), half(x), n - 1)
  }

  /** The register after the eight bits of a byte, least significant bit first. */
  function FeedByte(c: bv32, x: bv32): bv32 {
    FeedBits(Shift, Xor, LowBit, Half, c, x, 8)
  }

  function Feed(c: bv32, bytes: seq<bv8>): bv32 {
    if bytes == [] then c
    else FeedByte(Feed(c, bytes[..|bytes| - 1]), bytes[|bytes| - 1] as bv32)
  }

  /** CRC-32 as RFC 1952 defines it, one message bit at a time. */
  function Crc32(bytes: seq<bv8>): bv32 {
    !Feed(0xffffffff, bytes)
  }

  /** Bits 16 to 30, the part of a CRC the bucket hash keeps. */
  function HashBits(crc: bv32): bv32 {
    (crc >> 16) & 0x7fff
  }

  /** `_set_vbucket` for a key: `zlib.crc32` hashed down, unless an explicit positive vBucket is
      given. An explicit vBucket 0 is taken for "none", like a negative one. */
  function SetVBucket(key: seq<bv8>, vbucket: int, count: bv32): nat {
    if vbucket <= 0 then KeyVBucket(key, count) as nat else vbucket
  }

  function KeyVBucket(key: seq<bv8>, count: bv32): bv32 {
    HashBits(Crc32(key)) & (count - 1)
  }

  /** The lookup table `crc32tab`, an eighth at a time. */
  function Table(k: bv8): bv32 {
    match k & 0xe0
    case 0x00 => Table0(k) case 0x20 => Table1(k) case 0x40 => Table2(k) case 0x60 => Table3(k)
    case 0x80 => Table4(k) case 0xa0 => Table5(k) case 0xc0 => Table6(k) case _ => Table7(k)
  }

  function Table0(k: bv8): bv32 {
    match k & 0x10
    case 0x00 => (match k & 0x0f
      case 0x0 => 0x00000000 case 0x1 => 0x77073096 case 0x2 => 0xee0e612c case 0x3 => 0x990951ba
      case 0x4 => 0x076dc419 case 0x5 => 0x706af48f case 0x6 => 0xe963a535 case 0x7 => 0x9e6495a3
      case 0x8 => 0x0edb8832 case 0x9 => 0x79dcb8a4 case 0xa => 0xe0d5e91e case 0xb => 0x97d2d988
      case 0xc => 0x09b64c2b case 0xd => 0x7eb17cbd case 0xe => 0xe7b82d07 case _ => 0x90bf1d91)
    case _ => (match k & 0x0f
      case 0x0 => 0x1db71064 case 0x1 => 0x6ab020f2 case 0x2 => 0xf3b97148 case 0x3 => 0x84be41de
      case 0x4 => 0x1adad47d case 0x5 => 0x6ddde4eb case 0x6 => 0xf4d4b551 case 0x7 => 0x83d385c7
      case 0x8 => 0x136c9856 case 0x9 => 0x646ba8c0 case 0xa => 0xfd62f97a case 0xb => 0x8a65c9ec
      case 0xc => 0x14015c4f case 0xd => 0x63066cd9 case 0xe => 0xfa0f3d63 case _ => 0x8d080df5)
  }

  function Table1(k: bv8): bv32 {
    match k & 0x10
    case 0x00 => (match k & 0x0f
      case 0x0 => 0x3b6e20c8 case 0x1 => 0x4c69105e case 0x2 => 0xd56041e4 case 0x3 => 0xa2677172
      case 0x4 => 0x3c03e4d1 case 0x5 => 0x4b04d447 case 0x6 => 0xd20d85fd case 0x7 => 0xa50ab56b
      case 0x8 => 0x35b5a8fa case 0x9 => 0x42b2986c case 0xa => 0xdbbbc9d6 case 0xb => 0xacbcf940
      case 0xc => 0x32d86ce3 case 0xd => 0x45df5c75 case 0xe => 0xdcd60dcf case _ => 0xabd13d59)
    case _ => (match k & 0x0f
      case 0x0 => 0x26d930ac case 0x1 => 0x51de003a case 0x2 => 0xc8d75180 case 0x3 => 0xbfd06116
      case 0x4 => 0x21b4f4b5 case 0x5 => 0x56b3c423 case 0x6 => 0xcfba9599 case 0x7 => 0xb8bda50f
      case 0x8 => 0x2802b89e case 0x9 => 0x5f058808 case 0xa => 0xc60cd9b2 case 0xb => 0xb10be924
      case 0xc => 0x2f6f7c87 case 0xd => 0x58684c11 case 0xe => 0xc1611dab case _ => 0xb6662d3d)
  }

  function Table2(k: bv8): bv32 {
    match k & 0x10
    case 0x00 => (match k & 0x0f
      case 0x0 => 0x76dc4190 case 0x1 => 0x01db7106 case 0x2 => 0x98d220bc case 0x3 => 0xefd5102a
      case 0x4 => 0x71b18589 case 0x5 => 0x06b6b51f case 0x6 => 0x9fbfe4a5 case 0x7 => 0xe8b8d433
      case 0x8 => 0x7807c9a2 case 0x9 => 0x0f00f934 case 0xa => 0x9609a88e case 0xb => 0xe10e9818
      case 0xc => 0x7f6a0dbb case 0xd => 0x086d3d2d case 0xe => 0x91646c97 case _ => 0xe6635c01)
    case _ => (match k & 0x0f
      case 0x0 => 0x6b6b51f4 case 0x1 => 0x1c6c6162 case 0x2 => 0x856530d8 case 0x3 => 0xf262004e
      case 0x4 => 0x6c0695ed case 0x5 => 0x1b01a57b case 0x6 => 0x8208f4c1 case 0x7 => 0xf50fc457
      case 0x8 => 0x65b0d9c6 case 0x9 => 0x12b7e950 case 0xa => 0x8bbeb8ea case 0xb => 0xfcb9887c
      case 0xc => 0x62dd1ddf case 0xd => 0x15da2d49 case 0xe => 0x8cd37cf3 case _ => 0xfbd44c65)
  }

  function Table3(k: bv8): bv32 {
    match k & 0x10
    case 0x00 => (match k & 0x0f
      case 0x0 => 0x4db26158 case 0x1 => 0x3ab551ce case 0x2 => 0xa3bc0074 case 0x3 => 0xd4bb30e2
      case 0x4 => 0x4adfa541 case 0x5 => 0x3dd895d7 case 0x6 => 0xa4d1c46d case 0x7 => 0xd3d6f4fb
      case 0x8 => 0x4369e96a case 0x9 => 0x346ed9fc case 0xa => 0xad678846 case 0xb => 0xda60b8d0
      case 0xc => 0x44042d73 case 0xd => 0x33031de5 case 0xe => 0xaa0a4c5f case _ => 0xdd0d7cc9)
    case _ => (match k & 0x0f
      case 0x0 => 0x5005713c case 0x1 => 0x270241aa case 0x2 => 0xbe0b1010 case 0x3 => 0xc90c2086
      case 0x4 => 0x5768b525 case 0x5 => 0x206f85b3 case 0x6 => 0xb966d409 case 0x7 => 0xce61e49f
      case 0x8 => 0x5edef90e case 0x9 => 0x29d9c998 case 0xa => 0xb0d09822 case 0xb => 0xc7d7a8b4
      case 0xc => 0x59b33d17 case 0xd => 0x2eb40d81 case 0xe => 0xb7bd5c3b case _ => 0xc0ba6cad)
  }

  function Table4(k: bv8): bv32 {
    match k & 0x10
    case 0x00 => (match k & 0x0f
      case 0x0 => 0xedb88320 case 0x1 => 0x9abfb3b6 case 0x2 => 0x03b6e20c case 0x3 => 0x74b1d29a
      case 0x4 => 0xead54739 case 0x5 => 0x9dd277af case 0x6 => 0x04db2615 case 0x7 => 0x73dc1683
      case 0x8 => 0xe3630b12 case 0x9 => 0x94643b84 case 0xa => 0x0d6d6a3e case 0xb => 0x7a6a5aa8
      case 0xc => 0xe40ecf0b case 0xd => 0x9309ff9d case 0xe => 0x0a00ae27 case _ => 0x7d079eb1)
    case _ => (match k & 0x0f
      case 0x0 => 0xf00f9344 case 0x1 => 0x8708a3d2 case 0x2 => 0x1e01f268 case 0x3 => 0x6906c2fe
      case 0x4 => 0xf762575d case 0x5 => 0x806567cb case 0x6 => 0x196c3671 case 0x7 => 0x6e6b06e7
      case 0x8 => 0xfed41b76 case 0x9 => 0x89d32be0 case 0xa => 0x10da7a5a case 0xb => 0x67dd4acc
      case 0xc => 0xf9b9df6f case 0xd => 0x8ebeeff9 case 0xe => 0x17b7be43 case _ => 0x60b08ed5)
  }

  function Table5(k: bv8): bv32 {
    match k & 0x10
    case 0x00 => (match k & 0x0f
      case 0x0 => 0xd6d6a3e8 case 0x1 => 0xa1d1937e case 0x2 => 0x38d8c2c4 case 0x3 => 0x4fdff252
      case 0x4 => 0xd1bb67f1 case 0x5 => 0xa6bc5767 case 0x6 => 0x3fb506dd case 0x7 => 0x48b2364b
      case 0x8 => 0xd80d2bda case 0x9 => 0xaf0a1b4c case 0xa => 0x36034af6 case 0xb => 0x41047a60
      case 0xc => 0xdf60efc3 case 0xd => 0xa867df55 case 0xe => 0x316e8eef case _ => 0x4669be79)
    case _ => (match k & 0x0f
      case 0x0 => 0xcb61b38c case 0x1 => 0xbc66831a case 0x2 => 0x256fd2a0 case 0x3 => 0x5268e236
      case 0x4 => 0xcc0c7795 case 0x5 => 0xbb0b4703 case 0x6 => 0x220216b9 case 0x7 => 0x5505262f
      case 0x8 => 0xc5ba3bbe case 0x9 => 0xb2bd0b28 case 0xa => 0x2bb45a92 case 0xb => 0x5cb36a04
      case 0xc => 0xc2d7ffa7 case 0xd => 0xb5d0cf31 case 0xe => 0x2cd99e8b case _ => 0x5bdeae1d)
  }

  function Table6(k: bv8): bv32 {
    match k & 0x10
    case 0x00 => (match k & 0x0f
      case 0x0 => 0x9b64c2b0 case 0x1 => 0xec63f226 case 0x2 => 0x756aa39c case 0x3 => 0x026d930a
      case 0x4 => 0x9c0906a9 case 0x5 => 0xeb0e363f case 0x6 => 0x72076785 case 0x7 => 0x05005713
      case 0x8 => 0x95bf4a82 case 0x9 => 0xe2b87a14 case 0xa => 0x7bb12bae case 0xb => 0x0cb61b38
      case 0xc => 0x92d28e9b case 0xd => 0xe5d5be0d case 0xe => 0x7cdcefb7 case _ => 0x0bdbdf21)
    case _ => (match k & 0x0f
      case 0x0 => 0x86d3d2d4 case 0x1 => 0xf1d4e242 case 0x2 => 0x68ddb3f8 case 0x3 => 0x1fda836e
      case 0x4 => 0x81be16cd case 0x5 => 0xf6b9265b case 0x6 => 0x6fb077e1 case 0x7 => 0x18b74777
      case 0x8 => 0x88085ae6 case 0x9 => 0xff0f6a70 case 0xa => 0x66063bca case 0xb => 0x11010b5c
      case 0xc => 0x8f659eff case 0xd => 0xf862ae69 case 0xe => 0x616bffd3 case _ => 0x166ccf45)
  }

  function Table7(k: bv8): bv32 {
    match k & 0x10
    case 0x00 => (match k & 0x0f
      case 0x0 => 0xa00ae278 case 0x1 => 0xd70dd2ee case 0x2 => 0x4e048354 case 0x3 => 0x3903b3c2
      case 0x4 => 0xa7672661 case 0x5 => 0xd06016f7 case 0x6 => 0x4969474d case 0x7 => 0x3e6e77db
      case 0x8 => 0xaed16a4a case 0x9 => 0xd9d65adc case 0xa => 0x40df0b66 case 0xb => 0x37d83bf0
      case 0xc => 0xa9bcae53 case 0xd => 0xdebb9ec5 case 0xe => 0x47b2cf7f case _ => 0x30b5ffe9)
    case _ => (match k & 0x0f
      case 0x0 => 0xbdbdf21c case 0x1 => 0xcabac28a case 0x2 => 0x53b39330 case 0x3 => 0x24b4a3a6
      case 0x4 => 0xbad03605 case 0x5 => 0xcdd70693 case 0x6 => 0x54de5729 case 0x7 => 0x23d967bf
      case 0x8 => 0xb3667a2e case 0x9 => 0xc4614ab8 case 0xa => 0x5d681b02 case 0xb => 0x2a6f2b94
      case 0xc => 0xb40bbe37 case 0xd => 0xc30c8ea1 case 0xe => 0x5a05df1b case _ => 0x2d02ef8d)
  }

  function Part(k: bv32, bit: bv32, remainder: bv32): bv32 {
    if k & bit == 0 then 0 else remainder
  }

  /** What eight shifts leave of a low byte: the remainders of its bits, added up. */
  function Linear(k: bv32): bv32 {
    Xor(Part(k, 0x01, 0x77073096), Xor(Part(k, 0x02, 0xee0e612c), Xor(Part(k, 0x04, 0x076dc419),
    Xor(Part(k, 0x08, 0x0edb8832), Xor(Part(k, 0x10, 0x1db71064), Xor(Part(k, 0x20, 0x3b6e20c8),
    Xor(Part(k, 0x40, 0x76dc4190), Part(k, 0x80, 0xedb88320))))))))
  }

  lemma Row0IsLinear(k: bv8)
    requires k & 0xf0 == 0x00
    ensures Table0(k) == Linear(k as bv32)
  {
  }

  lemma Row1IsLinear(k: bv8)
    requires k & 0xf0 == 0x10
    ensures Table0(k) == Linear(k as bv32)
  {
  }

  lemma Table0IsLinear(k: bv8)
    requires k & 0xe0 == 0x00
    ensures Table0(k) == Linear(k as bv32)
  {
    if k & 0x10 == 0 { Row0IsLinear(k); } else { Row1IsLinear(k); }
  }

  lemma Table1IsLinear(k: bv8)
    requires k & 0xe0 == 0x20
    ensures Table1(k) == Linear(k as bv32)
  {
  }

  lemma Table2IsLinear(k: bv8)
    requires k & 0xe0 == 0x40
    ensures Table2(k) == Linear(k as bv32)
  {
  }

  lemma Table3IsLinear(k: bv8)
    requires k & 0xe0 == 0x60
    ensures Table3(k) == Linear(k as bv32)
  {
  }

  lemma Table4IsLinear(k: bv8)
    requires k & 0xe0 == 0x80
    ensures Table4(k) == Linear(k as bv32)
  {
  }

  lemma Table5IsLinear(k: bv8)
    requires k & 0xe0 == 0xa0
    ensures Table5(k) == Linear(k as bv32)
  {
  }

  lemma Table6IsLinear(k: bv8)
    requires k & 0xe0 == 0xc0
    ensures Table6(k) == Linear(k as bv32)
  {
  }

  lemma Table7IsLinear(k: bv8)
    requires k & 0xe0 == 0xe0
    ensures Table7(k) == Linear(k as bv32)
  {
  }

  function Iterate<T>(f: T -> T, c: T, n: nat): T
    decreases n
  {
    if n == 0 then c else Iterate(f, f(c), n - 1)
  }

  ghost predicate Linearly<T(!new)>(f: T -> T, xor: (T, T) -> T) {
    forall a, b {:trigger f(xor(a, b))} :: f(xor(a, b)) == xor(f(a), f(b))
  }

  lemma {:induction false} IterateLinear<T(!new)>(f: T -> T, xor: (T, T) -> T, a: T, b: T, n: nat)
    requires Linearly(f, xor)
    ensures Iterate(f, xor(a, b), n) == xor(Iterate(f, a, n), Iterate(f, b, n))
    decreases n
  {
    if n > 0 {
      IterateLinear(f, xor, f(a), f(b), n - 1);
    }
  }

  /** A linear register: shifting a value whose low bit is cleared just halves it. */
  ghost predicate Register<T(!new)>(f: T -> T, xor: (T, T) -> T, bit: T -> T, half: T -> T) {
    Linearly(f, xor) && Halving(f, xor, bit, half) && Cancelling(xor, bit)
  }

  ghost predicate Halving<T(!new)>(f: T -> T, xor: (T, T) -> T, bit: T -> T, half: T -> T) {
    forall y {:trigger f(xor(y, bit(y)))} :: f(xor(y, bit(y))) == half(y)
  }

  ghost predicate Cancelling<T(!new)>(xor: (T, T) -> T, bit: T -> T) {
    && (forall d, y {:trigger xor(xor(d, bit(y)), xor(y, bit(y)))} ::
          xor(xor(d, bit(y)), xor(y, bit(y))) == xor(d, y))
    && (forall d, y {:trigger xor(xor(d, y), y)} :: xor(xor(d, y), y) == d)
  }

  /** Adding the message to the register up front gives the same as adding it bit by bit,
      up to what is left of the message. */
  lemma {:induction false} FeedUpFront<T(!new)>(
    f: T -> T, xor: (T, T) -> T, bit: T -> T, half: T -> T, c: T, x: T, n: nat)
    requires Register(f, xor, bit, half)
    ensures FeedBits(f, xor, bit, half, c, x, n) == xor(Iterate(f, xor(c, x), n), Iterate(half, x, n))
    decreases n
  {
    if n > 0 {
      var d := f(xor(c, bit(x)));
      assert xor(d, half(x)) == f(xor(xor(c, bit(x)), xor(x, bit(x))));
      FeedUpFront(f, xor, bit, half, d, half(x), n - 1);
    }
  }

  lemma XorOdd(a: bv32, b: bv32)
    ensures (a ^ b) & 1 == 1 <==> ((a & 1 == 1) != (b & 1 == 1))
  {
  }

  lemma ShiftsEvenEven(a: bv32, b: bv32)
    ensures (a >> 1) ^ (b >> 1) == (a ^ b) >> 1
  {
  }

  lemma ShiftsOddEven(a: bv32, b: bv32)
    ensures ((a >> 1) ^ POLY) ^ (b >> 1) == ((a ^ b) >> 1) ^ POLY
  {
  }

  lemma ShiftsEvenOdd(a: bv32, b: bv32)
    ensures (a >> 1) ^ ((b >> 1) ^ POLY) == ((a ^ b) >> 1) ^ POLY
  {
  }

  lemma ShiftsOddOdd(a: bv32, b: bv32)
    ensures ((a >> 1) ^ POLY) ^ ((b >> 1) ^ POLY) == (a ^ b) >> 1
  {
  }

  lemma ShiftXor(a: bv32, b: bv32)
    ensures Shift(a ^ b) == Shift(a) ^ Shift(b)
  {
    XorOdd(a, b);
    if a & 1 == 1 {
      if b & 1 == 1 { ShiftsOddOdd(a, b); } else { ShiftsOddEven(a, b); }
    } else {
      if b & 1 == 1 { ShiftsEvenOdd(a, b); } else { ShiftsEvenEven(a, b); }
    }
  }

  lemma ShiftLinear()
    ensures Linearly(Shift, Xor)
  {
    forall a, b ensures Shift(Xor(a, b)) == Xor(Shift(a), Shift(b)) {
      ShiftXor(a, b);
    }
  }

  lemma ClearedShift(y: bv32)
    ensures Shift(y ^ (y & 1)) == y >> 1
  {
  }

  lemma ShiftHalving()
    ensures Halving(Shift, Xor, LowBit, Half)
  {
    forall y ensures Shift(Xor(y, LowBit(y))) == Half(y) { ClearedShift(y); }
  }

  lemma XorCancels(d: bv32, y: bv32, b: bv32)
    ensures (d ^ b) ^ (y ^ b) == d ^ y
    ensures (d ^ y) ^ y == d
  {
  }

  lemma XorCancelling()
    ensures Cancelling(Xor, LowBit)
  {
    forall d, y ensures Xor(Xor(d, LowBit(y)), Xor(y, LowBit(y))) == Xor(d, y) && Xor(Xor(d, y), y) == d {
      XorCancels(d, y, LowBit(y));
    }
  }

  lemma HalvesAway(x: bv32)
    requires x < 0x100
    ensures Iterate(Half, x, 8) == 0
  {
  }

  /** Eight shifts with no message. */
  function Shift8(c: bv32): bv32 {
    Iterate(Shift, c, 8)
  }

  lemma Shift8Linear()
    ensures Linearly(Shift8, Xor)
  {
    ShiftLinear();
    forall a, b ensures Shift8(Xor(a, b)) == Xor(Shift8(a), Shift8(b)) {
      IterateLinear(Shift, Xor, a, b, 8);
    }
  }

  lemma HighShifts(v: bv32)
    requires v & 0xff == 0
    ensures Shift8(v) == v >> 8
  {
  }

  /** What eight shifts leave of each single bit of a byte. */
  ghost predicate Remainders(g: bv32 -> bv32) {
    && g(0) == 0
    && g(0x01) == 0x77073096 && g(0x02) == 0xee0e612c && g(0x04) == 0x076dc419 && g(0x08) == 0x0edb8832
    && g(0x10) == 0x1db71064 && g(0x20) == 0x3b6e20c8 && g(0x40) == 0x76dc4190 && g(0x80) == 0xedb88320
  }

  lemma BitRemainders()
    ensures Remainders(Shift8)
  {
  }

  lemma BitsOfByte(k: bv32)
    requires k < 0x100
    ensures k == Xor(k & 0x01, Xor(k & 0x02, Xor(k & 0x04, Xor(k & 0x08,
                 Xor(k & 0x10, Xor(k & 0x20, Xor(k & 0x40, k & 0x80)))))))
  {
  }

  /** A linear function is fixed on sums of eight by its values on the summands. */
  lemma LinearSum<T(!new)>(g: T -> T, xor: (T, T) -> T, a: T, b: T, c: T, d: T, p: T, q: T, r: T, s: T)
    requires Linearly(g, xor)
    ensures g(xor(a, xor(b, xor(c, xor(d, xor(p, xor(q, xor(r, s)))))))) ==
            xor(g(a), xor(g(b), xor(g(c), xor(g(d), xor(g(p), xor(g(q), xor(g(r), g(s))))))))
  {
  }

  lemma OneBit(g: bv32 -> bv32, k: bv32, bit: bv32, remainder: bv32)
    requires g(0) == 0 && g(bit) == remainder
    requires k & bit == 0 || k & bit == bit
    ensures g(k & bit) == Part(k, bit, remainder)
  {
  }

  function SumOfBits(g: bv32 -> bv32, k: bv32): bv32 {
    Xor(g(k & 0x01), Xor(g(k & 0x02), Xor(g(k & 0x04), Xor(g(k & 0x08),
    Xor(g(k & 0x10), Xor(g(k & 0x20), Xor(g(k & 0x40), g(k & 0x80))))))))
  }

  lemma LinearFromBits(g: bv32 -> bv32, k: bv32)
    requires Linearly(g, Xor) && k < 0x100
    ensures g(k) == SumOfBits(g, k)
  {
    BitsOfByte(k);
    LinearSum(g, Xor, k & 0x01, k & 0x02, k & 0x04, k & 0x08, k & 0x10, k & 0x20, k & 0x40, k & 0x80);
  }

  lemma PartsOf(g: bv32 -> bv32, k: bv32)
    requires Remainders(g)
    ensures SumOfBits(g, k) == Linear(k)
  {
    OneBit(g, k, 0x01, 0x77073096);
    OneBit(g, k, 0x02, 0xee0e612c);
    OneBit(g, k, 0x04, 0x076dc419);
    OneBit(g, k, 0x08, 0x0edb8832);
    OneBit(g, k, 0x10, 0x1db71064);
    OneBit(g, k, 0x20, 0x3b6e20c8);
    OneBit(g, k, 0x40, 0x76dc4190);
    OneBit(g, k, 0x80, 0xedb88320);
  }

  /** Each table entry is what eight shifts leave of its index. */
  lemma TableEntry(k: bv8)
    ensures Table(k) == Shift8(k as bv32)
  {
    Shift8Linear();
    LinearFromBits(Shift8, k as bv32);
    BitRemainders();
    PartsOf(Shift8, k as bv32);
    match k & 0xe0 {
      case 0x00 => Table0IsLinear(k);
      case 0x20 => Table1IsLinear(k);
      case 0x40 => Table2IsLinear(k);
      case 0x60 => Table3IsLinear(k);
      case 0x80 => Table4IsLinear(k);
      case 0xa0 => Table5IsLinear(k);
      case 0xc0 => Table6IsLinear(k);
      case _ => Table7IsLinear(k);
    }
  }

  lemma SplitRegister(c: bv32, x: bv32)
    requires x < 0x100
    ensures c ^ x == Xor(c & 0xffffff00, (c ^ x) & 0xff)
  {
  }

  lemma HighPart(c: bv32)
    ensures (c & 0xffffff00) & 0xff == 0 && (c & 0xffffff00) >> 8 == c >> 8
  {
  }

  lemma SplitLinear(g: bv32 -> bv32, c: bv32, x: bv32)
    requires Linearly(g, Xor) && x < 0x100
    ensures g(c ^ x) == Xor(g(c & 0xffffff00), g((c ^ x) & 0xff))
  {
    SplitRegister(c, x);
  }

  lemma HighShift8(c: bv32)
    ensures Shift8(c & 0xffffff00) == c >> 8
  {
    HighPart(c);
    HighShifts(c & 0xffffff00);
  }

  lemma SplitTo(c: bv32, x: bv32, t: bv32)
    requires x < 0x100 && Shift8((c ^ x) & 0xff) == t
    ensures Shift8(c ^ x) == Xor(c >> 8, t)
  {
    Shift8Linear();
    SplitLinear(Shift8, c, x);
    HighShift8(c);
  }

  lemma FeedTo(c: bv32, x: bv32, t: bv32)
    requires x < 0x100 && Shift8((c ^ x) & 0xff) == t
    ensures FeedByte(c, x) == Xor(c >> 8, t)
  {
    SplitTo(c, x, t);
    // Feeding a byte shifts it, added to the register, through eight places.
    assert FeedByte(c, x) == Shift8(c ^ x) by {
      ShiftLinear();
      ShiftHalving();
      XorCancelling();
      FeedUpFront(Shift, Xor, LowBit, Half, c, x, 8);
      HalvesAway(x);
    }
  }

  /** One round of the table-driven loop does what eight rounds of the bit-serial register do. */
  lemma ByteStep(c: bv32, x: bv32, k: bv8)
    requires x < 0x100 && k as bv32 == (c ^ x) & 0xff
    ensures FeedByte(c, x) == Xor(c >> 8, Table(k))
  {
    TableEntry(k);
    FeedTo(c, x, Table(k));
  }

  /** The table-driven hash is bits 16 to 30 of the bit-serial CRC-32 of the key. */
  method Crc32Hash(key: seq<bv8>) returns (h: bv32)
    ensures h == HashBits(Crc32(key))
  {
    var crc: bv32 := 0xffffffff;
    for i := 0 to |key|
      invariant crc == Feed(0xffffffff, key[..i])
    {
      var x := key[i] as bv32;
      var k := ((crc ^ x) & 0xff) as bv8;
      ByteStep(crc, x, k);
      assert key[..i + 1][..i] == key[..i];
      crc := Xor(crc >> 8, Table(k));
    }
    assert key[..|key|] == key;
    h := (!crc >> 16) & 0x7fff;
  }

  lemma Masked(h: bv32, count: bv32)
    requires count != 0 && h < 0x8000
    ensures h & (count - 1) < count && h & (count - 1) < 0x8000
  {
  }

  lemma MaskedByDefault(h: bv32)
    ensures h & 1023 == h % 1024
  {
  }

  /** The vBucket of a key is always one of the bucket's, and with the default 1024 vBuckets it is
      the remainder of the hash. */
  lemma KeyVBucketInRange(key: seq<bv8>, count: bv32)
    requires count != 0
    ensures KeyVBucket(key, count) < count && KeyVBucket(key, count) < 0x8000
    ensures KeyVBucket(key, 1024) == HashBits(Crc32(key)) % 1024
  {
    Masked(HashBits(Crc32(key)), count);
    MaskedByDefault(HashBits(Crc32(key)));
  }

  /** The hash is fifteen bits, in the places of the CRC that the mask 0x7fff0000 covers. */
  lemma HashBitsPlaced(crc: bv32)
    ensures HashBits(crc) << 16 == crc & 0x7fff0000 && HashBits(crc) < 0x8000
  {
  }

  /** An explicit vBucket is used as it is if it is positive; zero and negative ones leave it to the key. */
  lemma ExplicitVBucket(key: seq<bv8>, vbucket: int, count: bv32)
    ensures vbucket > 0 ==> SetVBucket(key, vbucket, count) == vbucket
    ensures vbucket <= 0 ==> SetVBucket(key, vbucket, count) == KeyVBucket(key, count) as nat
    ensures vbucket <= 0 && count == 1024 ==> SetVBucket(key, vbucket, count) == (HashBits(Crc32(key)) % 1024) as nat
  {
    hide HashBits, Crc32;
    KeyVBucketInRange(key, 1024);
  }

  /** CRCs of known texts. */
  lemma KnownCrcs(a: seq<bv8>)
    requires a == [0x61]
    ensures Crc32([]) == 0 && Crc32(a) == 0xe8b7be43
  {
    ByteStep(0xffffffff, 0x61, 0x9e);
    assert a[..0] == [];
  }

  /** Masking the table-driven hash gives the vBucket the client computes with `zlib.crc32`. */
  method VBucketFromHash(key: seq<bv8>, count: bv32) returns (vb: bv32)
    ensures vb == KeyVBucket(key, count)
  {
    var h := Crc32Hash(key);
    vb := h & (count - 1);
  }
}
