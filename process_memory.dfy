/**
 * The target process's address space as the reader sees it through pymem.
 *
 * A read either returns the little-endian value stored at an address or
 * raises `MemoryReadError`; an address missing from a map is an address whose
 * read raises. `read_ulonglong(a)` and `read_bytes(a, 8)` read the same eight
 * bytes, so one map of 64-bit words serves both the pointer reads and the
 * double reads; `read_int` and `read_float` read four bytes, kept in a second map.
 */
module ProcessMemory {

  /** An unsigned 64-bit word, what `read_ulonglong` returns. */
  type U64 = x: int | 0 <= x < 0x1_0000_0000_0000_0000

  /** An unsigned 32-bit word, the four bytes behind `read_int` and `read_float`. */
  type U32 = x: int | 0 <= x < 0x1_0000_0000

  /** The readable 8-byte and 4-byte words of the target, by address. */
  datatype Memory = Memory(qwords: map<int, U64>, dwords: map<int, U32>)
}
