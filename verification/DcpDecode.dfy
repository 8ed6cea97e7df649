/**
 Decoding of streamed DCP messages: `StreamRequest.formated_response` and its helpers
 (lib/dcp_bin_client.py), against a reference encoder of the same packets.
 */
module DcpDecode {
  import opened Wrappers
  import opened DcpOpcodes
  import opened Bytes
  import Leb128
  import opened Lists

  const STREAM_ID_TAG: nat := 0x22

  /** The stream-id frame: a tag byte and a two-byte id. */
  const FRAME_FMT: Format := Field(1, Field(2, End))

  /** The length in front of an extended-attribute block. */
  const LENGTH_FMT: Format := Field(4, End)

  /** The two settings of a stream request that change how its messages read. */
  datatype Config = Config(collections: bool, deleteTimes: bool)

  datatype Packet = Packet(
    opcode: nat, keylen: nat, extlen: nat, hasXattrs: bool, frameExtraLen: nat, body: seq<byte>)

  type Xattr = (seq<byte>, seq<byte>)

  /** The response dictionary; `fields` are the numbers unpacked from the extras, in order. */
  datatype Decoded = Decoded(
    opcode: nat, fields: seq<nat>, streamId: Option<nat>, xattrs: Option<seq<Xattr>>,
    collectionId: Option<nat>, key: seq<byte>, value: seq<byte>)

  /** The extras each opcode must carry; None when the opcode is refused in this configuration. */
  function Extras(cfg: Config, opcode: nat): Option<Format> {
    if opcode == CMD_STREAM_END then Some(Field(4, End))
    else if opcode == CMD_MUTATION then
      Some(Field(8, Field(8, Field(4, Field(4, Field(4, Field(2, Field(1, End))))))))
    else if opcode == CMD_DELETION then
      if cfg.deleteTimes then Some(Field(8, Field(8, Field(4, Field(1, End)))))
      else Some(Field(8, Field(8, Field(2, End))))
    else if opcode == CMD_EXPIRATION then
      if cfg.deleteTimes then Some(Field(8, Field(8, Field(4, End)))) else None
    else if opcode == CMD_SNAPSHOT_MARKER then Some(Field(8, Field(8, Field(4, End))))
    else if opcode == CMD_SYSTEM_EVENT then Some(Field(8, Field(4, Field(1, End))))
    else Some(End)
  }

  predicate Streamed(opcode: nat) {
    opcode in {CMD_STREAM_END, CMD_SNAPSHOT_MARKER, CMD_MUTATION, CMD_DELETION, CMD_EXPIRATION, CMD_SYSTEM_EVENT}
  }

  predicate Keyed(opcode: nat) {
    opcode in {CMD_EXPIRATION, CMD_DELETION, CMD_MUTATION}
  }

  /** Python's `s[lo:hi]`, which stops at the end of the string. */
  function Slice(s: seq<byte>, lo: nat, hi: nat): seq<byte>
    requires lo <= hi
  {
    if lo >= |s| then [] else if hi >= |s| then s[lo..] else s[lo..hi]
  }

  /** `struct.unpack` raises unless the string has exactly the format's size. */
  function Unpacked(f: Format, s: seq<byte>): Option<seq<nat>> {
    if |s| == Size(f) then Some(Unpack(f, s)) else None
  }

  /** Index of the first NUL at or after `i`, or the length. */
  function NulAt(s: seq<byte>, i: nat): (k: nat)
    requires i <= |s|
    ensures i <= k <= |s| && (k < |s| ==> s[k] == 0)
    ensures forall j :: i <= j < k ==> s[j] != 0
    decreases |s| - i
  {
    if i == |s| || s[i] == 0 then i else NulAt(s, i + 1)
  }

  /** The attribute pair at `pos` and the position behind it; the length in front of the pair is
      read and not used. None: ran off the end. */
  function XattrAt(s: seq<byte>, pos: nat): (r: Option<(Xattr, nat)>)
    ensures r.Some? ==> pos < r.value.1 <= |s|
  {
    if pos + 4 > |s| then None
    else
      var k := NulAt(s, pos + 4);
      if k == |s| then None
      else
        var v := NulAt(s, k + 1);
        if v == |s| then None else Some(((s[pos + 4..k], s[k + 1..v]), v + 1))
  }

  /** The attribute pairs from `pos` on, while `pos` is below the announced total. */
  function Xattrs(s: seq<byte>, total: nat, pos: nat): Option<seq<Xattr>>
    decreases |s| - pos
  {
    if pos >= total then Some([])
    else
      var one := XattrAt(s, pos);
      if one == None then None else Prepend([one.value.0], Xattrs(s, total, one.value.1))
  }

  /** How many bytes of extras the opcode reads; None when it is refused outright. */
  function ExtrasSize(cfg: Config, opcode: nat): Option<nat> {
    var f := Extras(cfg, opcode);
    if f == None then None else Some(Size(f.value))
  }

  /** The numbers in the extras; only some snapshot flags are known. */
  function ExtrasFields(cfg: Config, opcode: nat, extras: seq<byte>): Option<seq<nat>> {
    FieldsIn(Extras(cfg, opcode), opcode, extras)
  }

  function FieldsIn(f: Option<Format>, opcode: nat, extras: seq<byte>): Option<seq<nat>> {
    if f == None then None
    else
      var fields := Unpacked(f.value, extras);
      if opcode == CMD_SNAPSHOT_MARKER && fields.Some? && |fields.value| == 3 && fields.value[2] !in {1, 2, 5, 6}
      then None else fields
  }

  /** `formated_response`, which cuts the body in four; None when it raises. */
  function Decode(cfg: Config, p: Packet): Option<Decoded> {
    var n := ExtrasSize(cfg, p.opcode);
    if n == None || (Streamed(p.opcode) && p.extlen != n.value) then None
    else
      var at := p.extlen + p.frameExtraLen;
      Assemble(p.opcode,
               ExtrasFields(cfg, p.opcode, Slice(p.body, p.frameExtraLen, p.frameExtraLen + n.value)),
               StreamId(p.frameExtraLen, Slice(p.body, 0, p.frameExtraLen)),
               SplitKey(cfg, p.opcode, p.keylen, Slice(p.body, at, at + p.keylen)),
               SplitValue(p.hasXattrs, Slice(p.body, at + p.keylen, at + p.keylen + |p.body|)))
  }

  function Assemble(opcode: nat, fields: Option<seq<nat>>, id: Option<Option<nat>>,
                    name: Option<(Option<nat>, seq<byte>)>,
                    document: Option<(Option<seq<Xattr>>, seq<byte>)>): Option<Decoded>
  {
    if fields == None || id == None || name == None || document == None then None
    else
      Some(Decoded(opcode, fields.value, id.value, document.value.0, name.value.0, name.value.1,
                   document.value.1))
  }

  /** The stream id in the frame in front of the extras, if there is one. */
  function StreamId(frameExtraLen: nat, frame: seq<byte>): Option<Option<nat>> {
    if frameExtraLen == 0 then Some(None)
    else
      var fields := Unpacked(FRAME_FMT, frame);
      if fields == None || fields.value[0] != STREAM_ID_TAG then None else Some(Some(fields.value[1]))
  }

  /** Splitting a value into its extended attributes and the document itself. */
  function SplitValue(hasXattrs: bool, value: seq<byte>): Option<(Option<seq<Xattr>>, seq<byte>)> {
    if !hasXattrs then Some((None, value))
    else
      var total := Unpacked(LENGTH_FMT, Slice(value, 0, 4));
      if total == None then None
      else
        var xattrs := Xattrs(value[4..], total.value[0], 0);
        var at := total.value[0] + 4;
        if xattrs == None then None else Some((xattrs, Slice(value, at, at + |value|)))
  }

  /** The collection id and the name in a key. */
  function SplitKey(cfg: Config, opcode: nat, keylen: nat, key: seq<byte>): Option<(Option<nat>, seq<byte>)> {
    if !Keyed(opcode) then Some((None, key))
    else if !cfg.collections || keylen == 0 then Some((Some(0), key))
    else
      var d := Leb128.Decode(key);
      if d.Decoded? then Some((Some(d.cid), d.key)) else None
  }

  // ---------- The reference encoder ----------

  /** A streamed message as a DCP producer sends it: a document change, the end of the stream, a snapshot marker or
      a system event. Only changes belong to a collection. */
  datatype Change = Change(
    opcode: nat, fields: seq<nat>, streamId: Option<nat>, collectionId: nat, key: seq<byte>,
    xattrs: Option<seq<Xattr>>, value: seq<byte>)

  function XattrBytes(x: Xattr): seq<byte> {
    PackInt(4, |x.0| + |x.1| + 2) + x.0 + [0] + x.1 + [0]
  }

  predicate NulFree(s: seq<byte>) {
    forall i :: 0 <= i < |s| ==> s[i] != 0
  }

  /** What a producer can send in this configuration: extras in range, NUL-free attributes whose
      block length fits, a two-byte stream id, and collection 0 when collections are off. */
  predicate Sendable(cfg: Config, c: Change) {
    && Streamed(c.opcode)
    && Extras(cfg, c.opcode).Some? && Fits(Extras(cfg, c.opcode).value, c.fields)
    && (c.streamId.Some? ==> c.streamId.value < 65536)
    && (c.xattrs.Some? ==>
          && |FlatMap(XattrBytes, c.xattrs.value)| < Pow256(4)
          && forall x :: x in c.xattrs.value ==> NulFree(x.0) && NulFree(x.1))
    && (!cfg.collections ==> c.collectionId == 0)
  }

  function Frame(streamId: Option<nat>): seq<byte>
    requires streamId.Some? ==> streamId.value < 65536
  {
    if streamId == None then [] else Pack(FRAME_FMT, [STREAM_ID_TAG, streamId.value])
  }

  function WireKey(cfg: Config, c: Change): seq<byte> {
    if cfg.collections && Keyed(c.opcode) then Leb128.Leb(c.collectionId) + c.key else c.key
  }

  function WireValue(xattrs: Option<seq<Xattr>>, value: seq<byte>): seq<byte>
    requires xattrs.Some? ==> |FlatMap(XattrBytes, xattrs.value)| < Pow256(4)
  {
    if xattrs == None then value
    else
      var block := FlatMap(XattrBytes, xattrs.value);
      Pack(LENGTH_FMT, [|block|]) + block + value
  }

  function ExtrasBytes(cfg: Config, c: Change): seq<byte>
    requires Sendable(cfg, c)
  {
    Pack(Extras(cfg, c.opcode).value, c.fields)
  }

  function Encode(cfg: Config, c: Change): Packet
    requires Sendable(cfg, c)
  {
    var frame := Frame(c.streamId);
    Packet(c.opcode, |WireKey(cfg, c)|, |ExtrasBytes(cfg, c)|, c.xattrs.Some?, |frame|,
           frame + ExtrasBytes(cfg, c) + WireKey(cfg, c) + WireValue(c.xattrs, c.value))
  }

  function Expected(c: Change): Decoded {
    Decoded(c.opcode, c.fields, c.streamId, c.xattrs,
            if Keyed(c.opcode) then Some(c.collectionId) else None, c.key, c.value)
  }

  // ---------- Proofs ----------

  lemma SliceMiddle(a: seq<byte>, b: seq<byte>, c: seq<byte>)
    ensures Slice(a + b + c, |a|, |a| + |b|) == b
  {
    var s := a + b + c;
    assert |b| > 0 ==> s[|a|..|a| + |b|] == b;
    if |s| == |a| + |b| { assert s[|a|..] == b; }
  }

  lemma SliceRest(a: seq<byte>, b: seq<byte>, n: nat)
    requires n >= |b|
    ensures Slice(a + b, |a|, |a| + n) == b
  {
    assert (a + b)[|a|..] == b;
  }

  /** An attribute stands at `pos`: four bytes, its name, a NUL, its value, a NUL. */
  ghost predicate StandsAt(s: seq<byte>, pos: nat, x: Xattr) {
    var k := pos + 4 + |x.0|;
    var v := k + 1 + |x.1|;
    v < |s| && s[pos + 4..k] == x.0 && s[k] == 0 && s[k + 1..v] == x.1 && s[v] == 0
  }

  function XattrLength(x: Xattr): nat {
    |x.0| + |x.1| + 6
  }

  /** The attributes stand one after the other from `pos` up to `end`. */
  ghost predicate BlockAt(s: seq<byte>, pos: nat, xs: seq<Xattr>, end: nat)
    decreases |xs|
  {
    if xs == [] then pos == end
    else pos < end && StandsAt(s, pos, xs[0]) && BlockAt(s, pos + XattrLength(xs[0]), xs[1..], end)
  }

  lemma SliceSplit<T>(s: seq<T>, pos: nat, a: seq<T>, b: seq<T>)
    requires pos + |a + b| <= |s| && s[pos..pos + |a + b|] == a + b
    ensures s[pos..pos + |a|] == a && s[pos + |a|..pos + |a| + |b|] == b
  {
    var all := s[pos..pos + |a + b|];
    assert s[pos..pos + |a|] == all[..|a|] && s[pos + |a|..pos + |a| + |b|] == all[|a|..];
  }

  lemma XattrBytesStand(s: seq<byte>, pos: nat, x: Xattr)
    requires pos + |XattrBytes(x)| <= |s| && s[pos..pos + |XattrBytes(x)|] == XattrBytes(x)
    ensures StandsAt(s, pos, x) && |XattrBytes(x)| == XattrLength(x)
  {
    var len, n, v := PackInt(4, |x.0| + |x.1| + 2), |x.0|, |x.1|;
    SliceSplit(s, pos, len + x.0 + [0] + x.1, [0]);
    SliceSplit(s, pos, len + x.0 + [0], x.1);
    SliceSplit(s, pos, len + x.0, [0]);
    SliceSplit(s, pos, len, x.0);
    assert s[pos + 4 + n..pos + 4 + n + 1] == [0] && s[pos + 5 + n + v..pos + 6 + n + v] == [0];
  }

  lemma {:induction false} BytesMakeBlock(s: seq<byte>, pos: nat, xs: seq<Xattr>)
    requires pos + |FlatMap(XattrBytes, xs)| <= |s|
    requires s[pos..pos + |FlatMap(XattrBytes, xs)|] == FlatMap(XattrBytes, xs)
    ensures BlockAt(s, pos, xs, pos + |FlatMap(XattrBytes, xs)|)
    decreases |xs|
  {
    if xs != [] {
      var b, rest := XattrBytes(xs[0]), FlatMap(XattrBytes, xs[1..]);
      SliceSplit(s, pos, b, rest);
      XattrBytesStand(s, pos, xs[0]);
      BytesMakeBlock(s, pos + |b|, xs[1..]);
    }
  }

  /** The two scans over an attribute stop at its two NULs. */
  lemma XattrScans(s: seq<byte>, pos: nat, x: Xattr)
    requires NulFree(x.0) && NulFree(x.1) && StandsAt(s, pos, x)
    ensures NulAt(s, pos + 4) == pos + 4 + |x.0|
    ensures NulAt(s, pos + 5 + |x.0|) == pos + 5 + |x.0| + |x.1|
  {
    var k := pos + 4 + |x.0|;
    var v := k + 1 + |x.1|;
    assert forall i {:trigger s[i]} :: pos + 4 <= i < k ==> s[i] == s[pos + 4..k][i - pos - 4];
    assert forall i {:trigger s[i]} :: k + 1 <= i < v ==> s[i] == s[k + 1..v][i - k - 1];
  }

  lemma {:induction false} XattrStep(s: seq<byte>, pos: nat, x: Xattr, end: nat, rest: seq<Xattr>)
    requires NulFree(x.0) && NulFree(x.1) && pos < end && StandsAt(s, pos, x)
    requires Xattrs(s, end, pos + XattrLength(x)) == Some(rest)
    ensures Xattrs(s, end, pos) == Some([x] + rest)
  {
    hide XattrAt;
    OneAttribute(s, pos, x);
  }

  lemma OneAttribute(s: seq<byte>, pos: nat, x: Xattr)
    requires NulFree(x.0) && NulFree(x.1) && StandsAt(s, pos, x)
    ensures XattrAt(s, pos) == Some((x, pos + XattrLength(x)))
  {
    hide NulAt;
    XattrScans(s, pos, x);
  }

  /** Parsing an attribute block gives back its pairs, wherever it stands and whatever follows it. */
  lemma {:induction false} XattrsBack(s: seq<byte>, pos: nat, xs: seq<Xattr>, end: nat)
    requires forall x :: x in xs ==> NulFree(x.0) && NulFree(x.1)
    requires BlockAt(s, pos, xs, end)
    ensures Xattrs(s, end, pos) == Some(xs)
    decreases |xs|
  {
    if xs != [] {
      XattrsBack(s, pos + XattrLength(xs[0]), xs[1..], end);
      XattrStep(s, pos, xs[0], end, xs[1..]);
      assert xs == [xs[0]] + xs[1..];
    }
  }

  lemma PrefixSlice(block: seq<byte>, value: seq<byte>)
    ensures (block + value)[0..|block|] == block
  {
  }

  lemma BlockBack(xs: seq<Xattr>, value: seq<byte>)
    requires forall x :: x in xs ==> NulFree(x.0) && NulFree(x.1)
    ensures var block := FlatMap(XattrBytes, xs); Xattrs(block + value, |block|, 0) == Some(xs)
  {
    var block := FlatMap(XattrBytes, xs);
    assert BlockAt(block + value, 0, xs, |block|) by {
      PrefixSlice(block, value);
      BytesMakeBlock(block + value, 0, xs);
    }
    XattrsBack(block + value, 0, xs, |block|);
  }

  lemma SplitBack(xs: seq<Xattr>, len: seq<byte>, block: seq<byte>, value: seq<byte>)
    requires |len| == 4 && Unpacked(LENGTH_FMT, len) == Some([|block|])
    requires Xattrs(block + value, |block|, 0) == Some(xs)
    ensures SplitValue(true, len + block + value) == Some((Some(xs), value))
  {
    var wire := len + block + value;
    SliceMiddle([], len, block + value);
    assert wire == [] + len + (block + value);
    assert wire[4..] == block + value;
    SliceRest(len + block, value, |wire|);
  }

  lemma SplitValueBack(xattrs: Option<seq<Xattr>>, value: seq<byte>)
    requires xattrs.Some? ==>
      && |FlatMap(XattrBytes, xattrs.value)| < Pow256(4)
      && forall x :: x in xattrs.value ==> NulFree(x.0) && NulFree(x.1)
    ensures SplitValue(xattrs.Some?, WireValue(xattrs, value)) == Some((xattrs, value))
  {
    if xattrs.Some? {
      var block := FlatMap(XattrBytes, xattrs.value);
      BlockBack(xattrs.value, value);
      UnpackPack(LENGTH_FMT, [|block|]);
      SplitBack(xattrs.value, Pack(LENGTH_FMT, [|block|]), block, value);
    }
  }

  /** The collection id can be told from the key. */
  predicate Separable(cfg: Config, c: Change) {
    !cfg.collections || !Keyed(c.opcode) || c.collectionId < 128 || c.key != []
  }

  lemma SplitKeyBack(cfg: Config, c: Change)
    requires !cfg.collections ==> c.collectionId == 0
    ensures SplitKey(cfg, c.opcode, |WireKey(cfg, c)|, WireKey(cfg, c)) == Some((Expected(c).collectionId, c.key)) <==>
            Separable(cfg, c)
    ensures !Separable(cfg, c) ==> SplitKey(cfg, c.opcode, |WireKey(cfg, c)|, WireKey(cfg, c)) == None
  {
    Leb128.DecodeEncode(c.collectionId, c.key);
  }

  /** A packet's four parts are found where the decoder looks for them. */
  lemma PartsBack(a: seq<byte>, e: seq<byte>, k: seq<byte>, v: seq<byte>)
    ensures var body := a + e + k + v;
            && Slice(body, |a|, |a| + |e|) == e
            && Slice(body, 0, |a|) == a
            && Slice(body, |e| + |a|, |e| + |a| + |k|) == k
            && Slice(body, |e| + |a| + |k|, |e| + |a| + |k| + |body|) == v
  {
    var body := a + e + k + v;
    assert Slice(body, |a|, |a| + |e|) == e by {
      assert body == a + e + (k + v);
      SliceMiddle(a, e, k + v);
    }
    assert Slice(body, 0, |a|) == a by {
      assert body == [] + a + (e + k + v);
      SliceMiddle([], a, e + k + v);
    }
    SliceMiddle(a + e, k, v);
    SliceRest(a + e + k, v, |body|);
  }

  lemma StreamIdBack(id: Option<nat>)
    requires id.Some? ==> id.value < 65536
    ensures StreamId(|Frame(id)|, Frame(id)) == Some(id)
  {
    if id.Some? {
      UnpackPack(FRAME_FMT, [STREAM_ID_TAG, id.value]);
    }
  }

  /** The extras of every opcode are read back field by field, in each configuration that has the opcode; a snapshot
      marker's if and only if its flag is one of the four known. */
  lemma FieldsBack(cfg: Config, opcode: nat, fields: seq<nat>)
    requires Extras(cfg, opcode).Some? && Fits(Extras(cfg, opcode).value, fields)
    ensures var extras := Pack(Extras(cfg, opcode).value, fields);
            && ExtrasSize(cfg, opcode) == Some(|extras|)
            && (ExtrasFields(cfg, opcode, extras) == Some(fields) <==> KnownFlag(opcode, fields))
            && (!KnownFlag(opcode, fields) ==> ExtrasFields(cfg, opcode, extras) == None)
  {
    UnpackPack(Extras(cfg, opcode).value, fields);
  }

  predicate KnownFlag(opcode: nat, fields: seq<nat>) {
    opcode == CMD_SNAPSHOT_MARKER ==> |fields| == 3 && fields[2] in {1, 2, 5, 6}
  }

  lemma DecodeCut(cfg: Config, p: Packet, a: seq<byte>, e: seq<byte>, k: seq<byte>, v: seq<byte>)
    requires p.body == a + e + k + v
    requires p.frameExtraLen == |a| && p.extlen == |e| && p.keylen == |k|
    requires ExtrasSize(cfg, p.opcode) == Some(|e|)
    ensures Decode(cfg, p) ==
            Assemble(p.opcode, ExtrasFields(cfg, p.opcode, e), StreamId(|a|, a),
                     SplitKey(cfg, p.opcode, |k|, k), SplitValue(p.hasXattrs, v))
  {
    PartsBack(a, e, k, v);
  }

  /** Decoding undoes encoding for every message a producer can send - sequence numbers, flags, stream
      id, collection id, key, attributes and value - exactly when a snapshot's flag is known and a change's
      collection id is below 128 or its key is not empty; otherwise decoding raises. */
  lemma DecodeEncode(cfg: Config, c: Change)
    requires Sendable(cfg, c)
    ensures Decode(cfg, Encode(cfg, c)) == Some(Expected(c)) <==> KnownFlag(c.opcode, c.fields) && Separable(cfg, c)
    ensures !(KnownFlag(c.opcode, c.fields) && Separable(cfg, c)) ==> Decode(cfg, Encode(cfg, c)) == None
  {
    var frame, extras := Frame(c.streamId), ExtrasBytes(cfg, c);
    var key, value := WireKey(cfg, c), WireValue(c.xattrs, c.value);
    FieldsBack(cfg, c.opcode, c.fields);
    DecodeCut(cfg, Encode(cfg, c), frame, extras, key, value);
    StreamIdBack(c.streamId);
    SplitValueBack(c.xattrs, c.value);
    SplitKeyBack(cfg, c);
    AssembleBack(cfg, c, ExtrasFields(cfg, c.opcode, extras), SplitKey(cfg, c.opcode, |key|, key));
  }

  lemma AssembleBack(cfg: Config, c: Change, fields: Option<seq<nat>>, key: Option<(Option<nat>, seq<byte>)>)
    requires fields == if KnownFlag(c.opcode, c.fields) then Some(c.fields) else None
    requires key == if Separable(cfg, c) then Some((Expected(c).collectionId, c.key)) else None
    ensures Assemble(c.opcode, fields, Some(c.streamId), key, Some((c.xattrs, c.value))) ==
            if KnownFlag(c.opcode, c.fields) && Separable(cfg, c) then Some(Expected(c)) else None
  {
  }

  // ---------- Where everything stands in a packet ----------

  /** A decoded message is made of the four parts of its packet. */
  lemma DecodedParts(cfg: Config, p: Packet, d: Decoded)
    requires Decode(cfg, p) == Some(d)
    ensures var n, at := ExtrasSize(cfg, p.opcode), p.extlen + p.frameExtraLen;
            && n.Some? && (Streamed(p.opcode) ==> p.extlen == n.value)
            && ExtrasFields(cfg, p.opcode, Slice(p.body, p.frameExtraLen, p.frameExtraLen + n.value)) == Some(d.fields)
            && StreamId(p.frameExtraLen, Slice(p.body, 0, p.frameExtraLen)) == Some(d.streamId)
            && SplitKey(cfg, p.opcode, p.keylen, Slice(p.body, at, at + p.keylen)) == Some((d.collectionId, d.key))
            && SplitValue(p.hasXattrs, Slice(p.body, at + p.keylen, at + p.keylen + |p.body|)) ==
               Some((d.xattrs, d.value))
  {
  }

  lemma DecodedExtras(cfg: Config, p: Packet, d: Decoded, f: Format)
    requires Decode(cfg, p) == Some(d) && Streamed(p.opcode) && Extras(cfg, p.opcode) == Some(f)
    ensures p.extlen == Size(f)
    ensures FieldsIn(Some(f), p.opcode, Slice(p.body, p.frameExtraLen, p.frameExtraLen + Size(f))) == Some(d.fields)
  {
    hide StreamId, SplitValue, SplitKey, FieldsIn, Slice, Size;
  }

  lemma FieldsInAre(f: Format, opcode: nat, extras: seq<byte>, n: seq<nat>)
    requires FieldsIn(Some(f), opcode, extras) == Some(n)
    ensures Unpacked(f, extras) == Some(n)
    ensures opcode == 0x56 && |n| == 3 ==> n[2] in {1, 2, 5, 6}
  {
  }

  /** The numbers of a message are those of its format, behind one another from the end of the frame on. */
  lemma DecodedFields(cfg: Config, p: Packet, d: Decoded, f: Format, size: nat)
    requires Decode(cfg, p) == Some(d) && Streamed(p.opcode) && Extras(cfg, p.opcode) == Some(f) && size == Size(f) > 0
    ensures p.extlen == size && p.frameExtraLen + size <= |p.body|
    ensures d.fields == UnpackWith(UnpackInt, f, p.body[p.frameExtraLen..p.frameExtraLen + size])
    ensures p.opcode == 0x56 && |d.fields| == 3 ==> d.fields[2] in {1, 2, 5, 6}
  {
    hide *;
    DecodedExtras(cfg, p, d, f);
    FieldsInAre(f, p.opcode, Slice(p.body, p.frameExtraLen, p.frameExtraLen + Size(f)), d.fields);
    UnpackedIs(f, p.body, p.frameExtraLen, d.fields);
  }

  lemma UnpackedIs(f: Format, body: seq<byte>, at: nat, n: seq<nat>)
    requires Unpacked(f, Slice(body, at, at + Size(f))) == Some(n) && Size(f) > 0
    ensures at + Size(f) <= |body| && n == UnpackWith(UnpackInt, f, body[at..at + Size(f)])
  {
    var extras := Slice(body, at, at + Size(f));
    assert |extras| == Size(f);
    assert extras == body[at..at + Size(f)];
    UnpackIs(f, extras);
  }

  /** Behind the frame of a mutation stand by_seqno and rev_seqno in eight bytes each, flags, expiration and lock time
      in four each, the length of the metadata in two, and the nru byte. */
  lemma MutationAt(cfg: Config, p: Packet, d: Decoded)
    requires p.opcode == 0x57 && Decode(cfg, p) == Some(d)
    ensures p.extlen == 31 && p.frameExtraLen + 31 <= |p.body|
    ensures SevenAt(UnpackInt, p.body, p.frameExtraLen, d.fields)
  {
    hide *;
    var fmt := Field(8, Field(8, Field(4, Field(4, Field(4, Field(2, Field(1, End)))))));
    MutationExtras(cfg, p.opcode, fmt);
    DecodedFields(cfg, p, d, fmt, 31);
    SevenUnpacked(UnpackInt, fmt, p.body, p.frameExtraLen, d.fields);
  }

  /** Numbers of 8, 8, 4, 4, 4, 2 and 1 bytes from `f` on. */
  predicate SevenAt(num: seq<byte> -> nat, b: seq<byte>, f: nat, n: seq<nat>)
    requires f + 31 <= |b|
  {
    && |n| == 7
    && n[0] == num(b[f..f + 8]) && n[1] == num(b[f + 8..f + 16])
    && n[2] == num(b[f + 16..f + 20]) && n[3] == num(b[f + 20..f + 24]) && n[4] == num(b[f + 24..f + 28])
    && n[5] == num(b[f + 28..f + 30]) && n[6] == num(b[f + 30..f + 31])
  }

  lemma MutationExtras(cfg: Config, opcode: nat, fmt: Format)
    requires opcode == 0x57 && fmt == Field(8, Field(8, Field(4, Field(4, Field(4, Field(2, Field(1, End)))))))
    ensures Streamed(opcode) && Extras(cfg, opcode) == Some(fmt) && Size(fmt) == 31
  {
  }

  lemma SevenUnpacked(num: seq<byte> -> nat, fmt: Format, b: seq<byte>, f: nat, n: seq<nat>)
    requires fmt == Field(8, Field(8, Field(4, Field(4, Field(4, Field(2, Field(1, End)))))))
    requires f + 31 <= |b| && n == UnpackWith(num, fmt, b[f..f + 31])
    ensures SevenAt(num, b, f, n)
  {
    hide UnpackWith;
    var three := Field(4, Field(2, Field(1, End)));
    ThreeUnpacked(num, three, b, f + 24, UnpackWith(num, three, b[f + 24..f + 31]), 4, 2, 1);
    ConsAt(num, 4, three, b, f + 20);
    ConsAt(num, 4, Field(4, three), b, f + 16);
    ConsAt(num, 8, Field(4, Field(4, three)), b, f + 8);
    ConsAt(num, 8, Field(8, Field(4, Field(4, three))), b, f);
  }

  /** Numbers of 8, 8, 4 and 1 bytes from `f` on. */
  predicate FourAt(num: seq<byte> -> nat, b: seq<byte>, f: nat, n: seq<nat>)
    requires f + 21 <= |b|
  {
    && |n| == 4 && n[0] == num(b[f..f + 8]) && n[1] == num(b[f + 8..f + 16])
    && n[2] == num(b[f + 16..f + 20]) && n[3] == num(b[f + 20..f + 21])
  }

  lemma FourUnpacked(num: seq<byte> -> nat, fmt: Format, b: seq<byte>, f: nat, n: seq<nat>)
    requires fmt == Field(8, Field(8, Field(4, Field(1, End))))
    requires f + 21 <= |b| && n == UnpackWith(num, fmt, b[f..f + 21])
    ensures FourAt(num, b, f, n)
  {
    hide UnpackWith;
    ThreeUnpacked(num, fmt.rest, b, f + 8, UnpackWith(num, fmt.rest, b[f + 8..f + 21]), 8, 4, 1);
    ConsAt(num, 8, fmt.rest, b, f);
  }

  /** Numbers of the three given widths from `f` on. */
  predicate ThreeAt(num: seq<byte> -> nat, b: seq<byte>, f: nat, n: seq<nat>, x: nat, y: nat, z: nat)
    requires f + x + y + z <= |b|
  {
    && |n| == 3 && n[0] == num(b[f..f + x]) && n[1] == num(b[f + x..f + x + y])
    && n[2] == num(b[f + x + y..f + x + y + z])
  }

  lemma ThreeUnpacked(num: seq<byte> -> nat, fmt: Format, b: seq<byte>, f: nat, n: seq<nat>, x: nat, y: nat, z: nat)
    requires fmt == Field(x, Field(y, Field(z, End))) && Size(fmt) == x + y + z
    requires f + x + y + z <= |b| && n == UnpackWith(num, fmt, b[f..f + x + y + z])
    ensures |n| == 3 && ThreeAt(num, b, f, n, x, y, z)
  {
    hide UnpackWith, Size;
    EndAt(num, b, f + x + y + z);
    ConsAt(num, z, End, b, f + x + y);
    ConsAt(num, y, Field(z, End), b, f + x);
    ConsAt(num, x, Field(y, Field(z, End)), b, f);
  }

  /** A deletion: by_seqno, rev_seqno, and with delete times the time in four bytes and an unused byte, otherwise the
      length of the metadata in two. */
  lemma DeletionAt(cfg: Config, p: Packet, d: Decoded)
    requires p.opcode == 0x58 && Decode(cfg, p) == Some(d)
    ensures if cfg.deleteTimes then
              p.extlen == 21 && p.frameExtraLen + 21 <= |p.body| && FourAt(UnpackInt, p.body, p.frameExtraLen, d.fields)
            else
              && p.extlen == 18 && p.frameExtraLen + 18 <= |p.body|
              && ThreeAt(UnpackInt, p.body, p.frameExtraLen, d.fields, 8, 8, 2)
  {
    if cfg.deleteTimes {
      TimedDeletionAt(cfg, p, d);
    } else {
      PlainDeletionAt(cfg, p, d);
    }
  }

  lemma TimedDeletionAt(cfg: Config, p: Packet, d: Decoded)
    requires p.opcode == 0x58 && cfg.deleteTimes && Decode(cfg, p) == Some(d)
    ensures p.extlen == 21 && p.frameExtraLen + 21 <= |p.body| && FourAt(UnpackInt, p.body, p.frameExtraLen, d.fields)
  {
    hide *;
    var fmt := Field(8, Field(8, Field(4, Field(1, End))));
    TimedExtras(cfg, p.opcode, fmt);
    DecodedFields(cfg, p, d, fmt, 21);
    FourUnpacked(UnpackInt, fmt, p.body, p.frameExtraLen, d.fields);
  }

  lemma TimedExtras(cfg: Config, opcode: nat, fmt: Format)
    requires opcode == 0x58 && cfg.deleteTimes && fmt == Field(8, Field(8, Field(4, Field(1, End))))
    ensures Streamed(opcode) && Extras(cfg, opcode) == Some(fmt) && Size(fmt) == 21
  {
  }

  lemma PlainDeletionAt(cfg: Config, p: Packet, d: Decoded)
    requires p.opcode == 0x58 && !cfg.deleteTimes && Decode(cfg, p) == Some(d)
    ensures p.extlen == 18 && p.frameExtraLen + 18 <= |p.body|
    ensures ThreeAt(UnpackInt, p.body, p.frameExtraLen, d.fields, 8, 8, 2)
  {
    hide *;
    var fmt := Field(8, Field(8, Field(2, End)));
    ThreeExtras(cfg, p.opcode, fmt, 8, 8, 2);
    DecodedFields(cfg, p, d, fmt, 18);
    ThreeUnpacked(UnpackInt, fmt, p.body, p.frameExtraLen, d.fields, 8, 8, 2);
  }

  lemma ThreeExtras(cfg: Config, opcode: nat, fmt: Format, x: nat, y: nat, z: nat)
    requires fmt == Field(x, Field(y, Field(z, End)))
    requires if opcode == 0x58 then !cfg.deleteTimes && x == 8 && y == 8 && z == 2
             else if opcode == 0x5f then x == 8 && y == 4 && z == 1
             else (opcode == 0x56 || (opcode == 0x59 && cfg.deleteTimes)) && x == 8 && y == 8 && z == 4
    ensures Streamed(opcode) && Extras(cfg, opcode) == Some(fmt) && Size(fmt) == x + y + z
  {
  }

  lemma DecodedTimes(cfg: Config, p: Packet, d: Decoded)
    requires Decode(cfg, p) == Some(d)
    ensures p.opcode == 0x59 ==> cfg.deleteTimes
  {
  }

  /** An expiration, which needs delete times: by_seqno, rev_seqno and the delete time; a snapshot marker: the first and
      last sequence number and the flag. */
  lemma ExpirationOrSnapshotAt(cfg: Config, p: Packet, d: Decoded)
    requires (p.opcode == 0x59 || p.opcode == 0x56) && Decode(cfg, p) == Some(d)
    ensures p.opcode == 0x59 ==> cfg.deleteTimes
    ensures p.extlen == 20 && p.frameExtraLen + 20 <= |p.body|
    ensures ThreeAt(UnpackInt, p.body, p.frameExtraLen, d.fields, 8, 8, 4)
    ensures p.opcode == 0x56 ==> d.fields[2] in {1, 2, 5, 6}
  {
    hide *;
    var fmt := Field(8, Field(8, Field(4, End)));
    DecodedTimes(cfg, p, d);
    ThreeExtras(cfg, p.opcode, fmt, 8, 8, 4);
    DecodedFields(cfg, p, d, fmt, 20);
    ThreeUnpacked(UnpackInt, fmt, p.body, p.frameExtraLen, d.fields, 8, 8, 4);
  }

  /** A system event: by_seqno in eight bytes, the event in four and the version in one. */
  lemma SystemEventAt(cfg: Config, p: Packet, d: Decoded)
    requires p.opcode == 0x5f && Decode(cfg, p) == Some(d)
    ensures p.extlen == 13 && p.frameExtraLen + 13 <= |p.body|
    ensures ThreeAt(UnpackInt, p.body, p.frameExtraLen, d.fields, 8, 4, 1)
  {
    hide *;
    var fmt := Field(8, Field(4, Field(1, End)));
    ThreeExtras(cfg, p.opcode, fmt, 8, 4, 1);
    DecodedFields(cfg, p, d, fmt, 13);
    ThreeUnpacked(UnpackInt, fmt, p.body, p.frameExtraLen, d.fields, 8, 4, 1);
  }

  /** The end of a stream: the flags in four bytes. */
  lemma StreamEndAt(cfg: Config, p: Packet, d: Decoded)
    requires p.opcode == 0x55 && Decode(cfg, p) == Some(d)
    ensures var b, f, n := p.body, p.frameExtraLen, d.fields;
            p.extlen == 4 && f + 4 <= |b| && |n| == 1 && Reads(UnpackInt, b[f..f + 4], n[0])
  {
    hide *;
    var fmt := Field(4, End);
    EndExtras(cfg, p.opcode);
    DecodedFields(cfg, p, d, fmt, 4);
    OneUnpacked(UnpackInt, fmt, p.body, p.frameExtraLen, d.fields);
  }

  lemma EndExtras(cfg: Config, opcode: nat)
    requires opcode == 0x55
    ensures Streamed(opcode) && Extras(cfg, opcode) == Some(Field(4, End)) && Size(Field(4, End)) == 4
  {
  }

  lemma OneUnpacked(num: seq<byte> -> nat, fmt: Format, b: seq<byte>, f: nat, n: seq<nat>)
    requires fmt == Field(4, End) && f + 4 <= |b| && n == UnpackWith(num, fmt, b[f..f + 4])
    ensures |n| == 1 && Reads(num, b[f..f + 4], n[0])
  {
    hide UnpackWith;
    EndAt(num, b, f + 4);
    ConsAt(num, 4, End, b, f);
  }

  predicate Reads(num: seq<byte> -> nat, s: seq<byte>, v: nat) {
    num(s) == v
  }

  /** The frame, if there is one, has three bytes: the tag 0x22 and the stream id. */
  lemma FrameAt(cfg: Config, p: Packet, d: Decoded)
    requires Decode(cfg, p) == Some(d)
    ensures p.frameExtraLen == 0 ==> d.streamId == None
    ensures p.frameExtraLen > 0 ==>
              && |p.body| >= 3 && (p.frameExtraLen == 3 || |p.body| == 3) && d.streamId.Some?
              && Reads(UnpackInt, p.body[0..1], 0x22) && Reads(UnpackInt, p.body[1..3], d.streamId.value)
  {
    DecodedParts(cfg, p, d);
    if p.frameExtraLen > 0 {
      var frame := Slice(p.body, 0, p.frameExtraLen);
      assert |frame| == 3 && frame == p.body[0..3];
      StreamIdAt(p.frameExtraLen, p.body, frame, FRAME_FMT, d.streamId);
    }
  }

  lemma StreamIdAt(frameExtraLen: nat, body: seq<byte>, frame: seq<byte>, fmt: Format, id: Option<nat>)
    requires frameExtraLen > 0 && |body| >= 3 && frame == body[0..3] && StreamId(frameExtraLen, frame) == Some(id)
    requires fmt == FRAME_FMT
    ensures id.Some? && Reads(UnpackInt, body[0..1], 0x22) && Reads(UnpackInt, body[1..3], id.value)
  {
    hide StreamId, Unpacked, UnpackInt, UnpackWith, Unpack;
    var n := StreamIdIs(frameExtraLen, frame, id);
    assert Slice(body, 0, 0 + 3) == frame;
    UnpackedIs(fmt, body, 0, n);
    TwoUnpacked(UnpackInt, fmt, body, n);
  }

  lemma StreamIdIs(frameExtraLen: nat, frame: seq<byte>, id: Option<nat>) returns (n: seq<nat>)
    requires frameExtraLen > 0 && StreamId(frameExtraLen, frame) == Some(id)
    ensures Unpacked(FRAME_FMT, frame) == Some(n) && |n| == 2 && n[0] == 0x22 && id == Some(n[1])
  {
    n := Unpacked(FRAME_FMT, frame).value;
  }

  lemma TwoUnpacked(num: seq<byte> -> nat, fmt: Format, b: seq<byte>, n: seq<nat>)
    requires fmt == Field(1, Field(2, End)) && |b| >= 3 && n == UnpackWith(num, fmt, b[0..3])
    ensures |n| == 2 && Reads(num, b[0..1], n[0]) && Reads(num, b[1..3], n[1])
  {
    hide UnpackWith;
    EndAt(num, b, 3);
    ConsAt(num, 2, End, b, 1);
    ConsAt(num, 1, Field(2, End), b, 0);
  }

  /** Behind the extras stands the key, with the collection id in front where there are collections. */
  lemma KeyAt(cfg: Config, p: Packet, d: Decoded)
    requires Decode(cfg, p) == Some(d)
    ensures var k := p.frameExtraLen + p.extlen;
            var key := Slice(p.body, k, k + p.keylen);
            if p.opcode !in {0x57, 0x58, 0x59} then d.collectionId == None && d.key == key
            else if !cfg.collections || p.keylen == 0 then d.collectionId == Some(0) && d.key == key
            else d.collectionId.Some? && Leb128.Decode(key) == Leb128.Decoded(d.collectionId.value, d.key)
  {
    hide *;
    var k := p.frameExtraLen + p.extlen;
    DecodedParts(cfg, p, d);
    KeySplits(cfg, p.opcode, p.keylen, Slice(p.body, k, k + p.keylen), d.collectionId, d.key);
  }

  lemma KeySplits(cfg: Config, opcode: nat, keylen: nat, bytes: seq<byte>, id: Option<nat>, key: seq<byte>)
    requires SplitKey(cfg, opcode, keylen, bytes) == Some((id, key))
    ensures if opcode !in {0x57, 0x58, 0x59} then id == None && key == bytes
            else if !cfg.collections || keylen == 0 then id == Some(0) && key == bytes
            else id.Some? && Leb128.Decode(bytes) == Leb128.Decoded(id.value, key)
  {
  }

  /** Behind the key stands the value; attributes stand in front of it, preceded by their length in four bytes. */
  lemma ValueAt(cfg: Config, p: Packet, d: Decoded)
    requires Decode(cfg, p) == Some(d)
    ensures var k := p.frameExtraLen + p.extlen + p.keylen;
            var value := if k <= |p.body| then p.body[k..] else [];
            if p.hasXattrs then
              && |value| >= 4 && d.xattrs == Xattrs(value[4..], UnpackInt(value[..4]), 0)
              && d.value == if UnpackInt(value[..4]) + 4 <= |value| then value[UnpackInt(value[..4]) + 4..] else []
            else d.xattrs.None? && d.value == value
  {
    hide Decode, SplitKey, SplitValue, StreamId, ExtrasFields;
    var k := p.frameExtraLen + p.extlen + p.keylen;
    var value := if k <= |p.body| then p.body[k..] else [];
    DecodedParts(cfg, p, d);
    assert Slice(p.body, k, k + |p.body|) == value;
    ValueSplitsAt(p.hasXattrs, value, LENGTH_FMT);
  }

  lemma ValueSplitsAt(hasXattrs: bool, value: seq<byte>, fmt: Format)
    requires SplitValue(hasXattrs, value).Some? && fmt == LENGTH_FMT == Field(4, End)
    ensures var r := SplitValue(hasXattrs, value).value;
            if hasXattrs then
              && |value| >= 4 && r.0 == Xattrs(value[4..], UnpackInt(value[..4]), 0)
              && r.1 == if UnpackInt(value[..4]) + 4 <= |value| then value[UnpackInt(value[..4]) + 4..] else []
            else r.0.None? && r.1 == value
  {
    if hasXattrs {
      assert Slice(value, 0, 4) == value[0..4] == value[..4];
      assert value[..4][..4] == value[..4];
    }
  }

  // ---------- The attribute parser itself ----------

  /** The two inner loops: the bytes from `start` up to the next NUL, or to the end. */
  method CollectToNul(s: seq<byte>, start: nat) returns (text: seq<byte>, pos: nat)
    requires start <= |s|
    ensures pos == NulAt(s, start) && text == s[start..pos]
  {
    pos, text := start, [];
    while pos < |s| && s[pos] != 0
      invariant start <= pos <= |s| && text == s[start..pos]
      invariant NulAt(s, start) == NulAt(s, pos)
    {
      text := text + [s[pos]];
      pos := pos + 1;
    }
  }

  /** One round of the parsing loop. */
  method ParseOne(value: seq<byte>, pos: nat) returns (r: Option<(Xattr, nat)>)
    ensures r == XattrAt(value, pos)
  {
    if pos + 4 > |value| {
      return None;
    }
    var key, k := CollectToNul(value, pos + 4);
    if k == |value| {
      return None;
    }
    var text, v := CollectToNul(value, k + 1);
    if v == |value| {
      return None;
    }
    return Some(((key, text), v + 1));
  }

  /** `parse_extended_attributes`. */
  method ParseExtendedAttributes(value: seq<byte>, total: nat) returns (r: Option<seq<Xattr>>)
    ensures r == Xattrs(value, total, 0)
  {
    var xattrs: seq<Xattr> := [];
    var pos := 0;
    ghost var all := Xattrs(value, total, 0);
    assert all.Some? ==> [] + all.value == all.value;
    while pos < total
      invariant Prepend(xattrs, Xattrs(value, total, pos)) == all
      decreases |value| - pos
    {
      var one := ParseOne(value, pos);
      if one == None {
        return None;
      }
      PrependTwice(xattrs, [one.value.0], Xattrs(value, total, one.value.1));
      pos := one.value.1;
      xattrs := xattrs + [one.value.0];
    }
    assert xattrs + [] == xattrs;
    return Some(xattrs);
  }
}
