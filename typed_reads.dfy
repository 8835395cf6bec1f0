/**
 * `read_memory_int`, `read_memory_float` and `read_memory_double` of
 * src/memory_reader.py: typed reads that never raise. Address 0 yields zero
 * without any read, and so does a read that raises.
 */
module TypedReads {
  import opened ProcessMemory
  import opened FloatBits

  /** The signed value of a 32-bit word, as `read_int` decodes it (two's complement). */
  function ToInt32(w: U32): (v: int)
    ensures -0x8000_0000 <= v < 0x8000_0000
    ensures v % 0x1_0000_0000 == w
  {
    if w < 0x8000_0000 then w else w - 0x1_0000_0000
  }

  /** `read_memory_int(pm, address)`. */
  function ReadMemoryInt(mem: Memory, address: int): (v: int)
    ensures -0x8000_0000 <= v < 0x8000_0000
    ensures address == 0 || address !in mem.dwords ==> v == 0
    ensures v != 0 ==> address != 0 && address in mem.dwords && v % 0x1_0000_0000 == mem.dwords[address]
    ensures address != 0 && address in mem.dwords ==> v % 0x1_0000_0000 == mem.dwords[address]
  {
    if address == 0 then 0
    else if address !in mem.dwords then 0
    else ToInt32(mem.dwords[address])
  }

  /** `read_memory_float(pm, address)`, as the bit pattern of the 32-bit float read. */
  function ReadMemoryFloat(mem: Memory, address: int): (f: Single)
    ensures address == 0 || address !in mem.dwords ==> f == 0
    ensures f != 0 ==> address != 0 && address in mem.dwords && f == mem.dwords[address]
    ensures address != 0 && address in mem.dwords ==> f == mem.dwords[address]
  {
    if address == 0 then 0
    else if address !in mem.dwords then 0
    else mem.dwords[address]
  }

  /** `read_memory_double(pm, address)`: the eight bytes at the address, as a double's bit pattern. */
  function ReadMemoryDouble(mem: Memory, address: int): (d: Double)
    ensures address == 0 || address !in mem.qwords ==> d == PositiveZero
    ensures d != PositiveZero ==> address != 0 && address in mem.qwords && d == mem.qwords[address]
    ensures address != 0 && address in mem.qwords ==> d == mem.qwords[address]
  {
    if address == 0 then PositiveZero
    else if address !in mem.qwords then PositiveZero
    else mem.qwords[address]
  }
}
