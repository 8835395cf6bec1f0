/**
 * src/current_health.py: a one-shot script that attaches, follows the
 * current-health chain from `module_base + BASE_OFFSET` with its own copy of the
 * chain walk, and reads the double at the end with `read_bytes(final, 8)`.
 */
module CurrentHealthProbe {
  import opened Wrappers
  import opened ProcessMemory
  import opened FloatBits
  import opened PointerChain

  /** The chain's offset from the module base (`BASE_OFFSET`). */
  const BASE_OFFSET: nat := 0x064D8FD0

  /** The chain's offsets, one per pointer level (`OFFSETS`). */
  const OFFSETS: seq<nat> := [0x30, 0x8C8, 0xB0, 0x2F0, 0x368]

  /** The script's `resolve_pointer_chain`, a copy of `read_pointer_chain`: the same loop, with the same result and reads. */
  method ResolvePointerChain(words: map<int, U64>, baseAddress: int, offsets: seq<int>)
    returns (result: Result<int, ChainError>, readLog: seq<int>)
    ensures result == Resolve(words, baseAddress, offsets)
    ensures readLog == ReadAddresses(words, baseAddress, offsets)
  {
    var addr := baseAddress;
    readLog := [];
    for i := 0 to |offsets|
      invariant Walk(words, addr, offsets[i..], i) == Resolve(words, baseAddress, offsets)
      invariant readLog + ReadAddresses(words, addr, offsets[i..]) == ReadAddresses(words, baseAddress, offsets)
    {
      WalkStep(words, addr, offsets, i);
      readLog := readLog + [addr];
      if addr !in words {
        return Err(ReadFailed(i, addr)), readLog;
      }
      addr := words[addr] + offsets[i];
    }
    result := Ok(addr);
  }

  /** Why the script exits after attaching: the walk raised, or the final read did. */
  datatype ProbeError = ChainFailed(cause: ChainError) | ValueUnreadable(address: int)

  /**
   * What `main` reports once it has the module base: the current-health double,
   * read without any zero-address guard, or the reason it exits.
   */
  function Probe(moduleBase: int, mem: Memory): (r: Result<Double, ProbeError>)
    ensures r.Ok? ==>
      && |ReadAddresses(mem.qwords, moduleBase + BASE_OFFSET, OFFSETS)| == 5
      && ReadAddresses(mem.qwords, moduleBase + BASE_OFFSET, OFFSETS)[0] == moduleBase + 0x064D8FD0
    ensures r.Err? && r.error.ChainFailed? ==> r.error.cause.level < 5
    ensures r.Ok? <==>
      && Resolve(mem.qwords, moduleBase + BASE_OFFSET, OFFSETS).Ok?
      && Resolve(mem.qwords, moduleBase + BASE_OFFSET, OFFSETS).value in mem.qwords
    ensures r.Ok? ==> r.value == mem.qwords[Resolve(mem.qwords, moduleBase + BASE_OFFSET, OFFSETS).value]
  {
    ReadCount(mem.qwords, moduleBase + BASE_OFFSET, OFFSETS);
    match Resolve(mem.qwords, moduleBase + BASE_OFFSET, OFFSETS)
    case Err(e) => Err(ChainFailed(e))
    case Ok(final) =>
      if final in mem.qwords then Ok(mem.qwords[final]) else Err(ValueUnreadable(final))
  }

  /**
   * A complete read path from `moduleBase + BASE_OFFSET` over `OFFSETS` whose
   * last address is readable makes the script report the value stored there.
   */
  lemma ReportsEndOfPath(moduleBase: int, mem: Memory, path: seq<int>)
    requires IsPath(mem.qwords, moduleBase + BASE_OFFSET, OFFSETS, path) && |path| == 6
    requires path[5] in mem.qwords
    ensures Probe(moduleBase, mem) == Ok(mem.qwords[path[5]])
  {
    CompletePathResolves(mem.qwords, moduleBase + BASE_OFFSET, OFFSETS, path);
  }
}
