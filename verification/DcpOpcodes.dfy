/** The DCP opcodes (lib/memcacheConstants.py). */
module DcpOpcodes {

  const CMD_STREAM_REQ: nat := 0x53
  const CMD_STREAM_END: nat := 0x55
  const CMD_SNAPSHOT_MARKER: nat := 0x56
  const CMD_MUTATION: nat := 0x57
  const CMD_DELETION: nat := 0x58
  const CMD_EXPIRATION: nat := 0x59
  const CMD_UPR_NOOP: nat := 0x5c
  const CMD_FLOW_CONTROL: nat := 0x5e
  const CMD_SYSTEM_EVENT: nat := 0x5f
}
