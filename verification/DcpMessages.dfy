/** Messages as the DCP client receives them, and the responses made of them (lib/dcp_bin_client.py). */
module DcpMessages {
  import opened Wrappers
  import opened Bytes
  import opened DcpOpcodes
  import DcpDecode

  /** The nine fields of a received message; `tag` is its opaque. */
  datatype Message = Message(
    opcode: nat, status: nat, tag: nat, cas: nat, keylen: nat, extlen: nat, dtype: nat, body: seq<byte>,
    frameExtraLen: nat)

  /** The response dictionary; a missing key is None. */
  datatype Response = Response(
    opcode: nat, vbucket: int, seqno: Option<nat>, status: Option<nat>, decoded: Option<DcpDecode.Decoded>)
  {
    predicate Mutates() {
      opcode in {CMD_MUTATION, CMD_DELETION, CMD_EXPIRATION}
    }

    predicate Acceptable(vb: int, last: nat) {
      Mutates() ==> vbucket == vb && seqno.Some? && seqno.value > last
    }
  }
}
