/** Protocol constants and the frame record shared by both ends (src/frame.rs). */
module Wire {
  type byte = x: int | 0 <= x < 0x100
  type Bytes = seq<byte>

  const U64_MAX := 0xFFFF_FFFF_FFFF_FFFF
  type u32 = x: int | 0 <= x < 0x1_0000_0000
  type u64 = x: int | 0 <= x <= U64_MAX

  const HEADER_LEN := 15
  const MAX_PAYLOAD := 65535
  const MAX_REORDER_WINDOW := 512
  const MAX_REORDER_BYTES := 64 * 1024 * 1024
  const MAX_PENDING_CIDS := 256
  const MAX_PENDING_BYTES := 64 * 1024 * 1024

  datatype Frame = Frame(connId: u32, seqno: u64, flags: byte, payload: Bytes)

  function Size(payload: Bytes): nat {
    |payload|
  }

  /** `wrapping_add(1)` on a u64 sequence number. */
  function Succ(s: u64): u64 {
    if s == U64_MAX then 0 else s + 1
  }

  function Flatten<T>(chunks: seq<seq<T>>): seq<T> {
    if chunks == [] then [] else chunks[0] + Flatten(chunks[1..])
  }
}
