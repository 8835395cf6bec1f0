/**
 * `read_pointer_chain` of src/memory_reader.py: from a base address, for each
 * offset in order, read the 8-byte pointer stored at the current address and
 * add the offset to it. A read that raises ends the walk with an error naming
 * the level and the address. A pointer value that was read is never checked:
 * a null pointer simply has the next offset added to it.
 */
module PointerChain {
  import opened Wrappers
  import opened ProcessMemory
  import PyInt

  /** The `RuntimeError` the walk raises: the level whose read failed and its address. */
  datatype ChainError = ReadFailed(level: nat, address: int)

  /** The walk from `addr`, which is at chain level `level`, over the remaining offsets. */
  function Walk(words: map<int, U64>, addr: int, offsets: seq<int>, level: nat): Result<int, ChainError>
    decreases |offsets|
  {
    if offsets == [] then Ok(addr)
    else if addr !in words then Err(ReadFailed(level, addr))
    else Walk(words, words[addr] + offsets[0], offsets[1..], level + 1)
  }

  /** The final address `read_pointer_chain(pm, base, offsets)` returns, or the error it raises. */
  function Resolve(words: map<int, U64>, base: int, offsets: seq<int>): Result<int, ChainError> {
    Walk(words, base, offsets, 0)
  }

  /** The addresses passed to `read_ulonglong`, in call order, during the walk from `addr`. */
  function ReadAddresses(words: map<int, U64>, addr: int, offsets: seq<int>): seq<int>
    decreases |offsets|
  {
    if offsets == [] then []
    else if addr !in words then [addr]
    else [addr] + ReadAddresses(words, words[addr] + offsets[0], offsets[1..])
  }

  /**
   * `path` is a run of successful pointer reads starting at `base`: each
   * address but the last is readable, and the next address is the word read
   * there plus that level's offset.
   */
  ghost predicate IsPath(words: map<int, U64>, base: int, offsets: seq<int>, path: seq<int>) {
    && 1 <= |path| <= |offsets| + 1
    && path[0] == base
    && forall i :: 0 <= i < |path| - 1 ==> path[i] in words && path[i + 1] == words[path[i]] + offsets[i]
  }

  /** The addresses the walk from `addr` visits: each one read, up to the last reached. */
  function PathFrom(words: map<int, U64>, addr: int, offsets: seq<int>): seq<int>
    decreases |offsets|
  {
    if offsets == [] || addr !in words then [addr]
    else [addr] + PathFrom(words, words[addr] + offsets[0], offsets[1..])
  }

  /**
   * Every walk follows one path. It succeeds exactly when the path covers all
   * offsets, returning the path's last address; otherwise it fails at the
   * first unreadable address, naming that level and that address. One read
   * is made per level reached, at that level's address, and none after a failure.
   */
  lemma WalkFollowsPath(words: map<int, U64>, addr: int, offsets: seq<int>, level: nat)
    returns (path: seq<int>)
    ensures IsPath(words, addr, offsets, path)
    ensures |path| == |offsets| + 1 ==> Walk(words, addr, offsets, level) == Ok(path[|offsets|])
    ensures |path| <= |offsets| ==>
      (path[|path| - 1] !in words
       && Walk(words, addr, offsets, level) == Err(ReadFailed(level + |path| - 1, path[|path| - 1])))
    ensures ReadAddresses(words, addr, offsets) == if |path| == |offsets| + 1 then path[..|offsets|] else path
  {
    path := PathFrom(words, addr, offsets);
    PathFromIsPath(words, addr, offsets);
    WalkAlongPath(words, addr, offsets, level);
    ReadsAlongPath(words, addr, offsets);
  }

  lemma {:induction false} PathFromIsPath(words: map<int, U64>, addr: int, offsets: seq<int>)
    ensures IsPath(words, addr, offsets, PathFrom(words, addr, offsets))
    decreases |offsets|
  {
    if offsets != [] && addr in words {
      PathFromIsPath(words, words[addr] + offsets[0], offsets[1..]);
      PathCons(words, addr, offsets, PathFrom(words, words[addr] + offsets[0], offsets[1..]));
    }
  }

  lemma {:induction false} WalkAlongPath(words: map<int, U64>, addr: int, offsets: seq<int>, level: nat)
    ensures var p := PathFrom(words, addr, offsets);
      && 1 <= |p| <= |offsets| + 1
      && (|p| == |offsets| + 1 ==> Walk(words, addr, offsets, level) == Ok(p[|offsets|]))
      && (|p| <= |offsets| ==>
            p[|p| - 1] !in words && Walk(words, addr, offsets, level) == Err(ReadFailed(level + |p| - 1, p[|p| - 1])))
    decreases |offsets|
  {
    if offsets != [] && addr in words {
      var next := words[addr] + offsets[0];
      WalkAlongPath(words, next, offsets[1..], level + 1);
      var rest := PathFrom(words, next, offsets[1..]);
      assert PathFrom(words, addr, offsets)[|rest|] == rest[|rest| - 1];
    }
  }

  lemma {:induction false} ReadsAlongPath(words: map<int, U64>, addr: int, offsets: seq<int>)
    ensures var p := PathFrom(words, addr, offsets);
      ReadAddresses(words, addr, offsets) == if |p| == |offsets| + 1 then p[..|offsets|] else p
    decreases |offsets|
  {
    if offsets != [] && addr in words {
      var next := words[addr] + offsets[0];
      ReadsAlongPath(words, next, offsets[1..]);
      WalkAlongPath(words, next, offsets[1..], 0);
      var rest := PathFrom(words, next, offsets[1..]);
      if |rest| == |offsets| {
        assert PathFrom(words, addr, offsets)[..|offsets|] == [addr] + rest[..|offsets| - 1];
      }
    }
  }

  /** A readable address in front of a path from the next address is a path from it. */
  lemma PathCons(words: map<int, U64>, addr: int, offsets: seq<int>, rest: seq<int>)
    requires offsets != [] && addr in words
    requires IsPath(words, words[addr] + offsets[0], offsets[1..], rest)
    ensures IsPath(words, addr, offsets, [addr] + rest)
  {
    var path := [addr] + rest;
    forall i | 0 <= i < |path| - 1
      ensures path[i] in words && path[i + 1] == words[path[i]] + offsets[i]
    {
      if i > 0 {
        assert path[i] == rest[i - 1] && path[i + 1] == rest[i];
        assert offsets[i] == offsets[1..][i - 1];
      }
    }
  }

  /**
   * The read count: a walk that succeeds reads exactly once per offset, the
   * first time at the base; a walk that fails at level i has read i + 1
   * times, the last time at the address its error names.
   */
  lemma ReadCount(words: map<int, U64>, base: int, offsets: seq<int>)
    ensures Resolve(words, base, offsets).Ok? ==> |ReadAddresses(words, base, offsets)| == |offsets|
    ensures offsets != [] ==> ReadAddresses(words, base, offsets)[0] == base
    ensures Resolve(words, base, offsets).Err? ==>
      var e := Resolve(words, base, offsets).error;
      && e.level < |offsets|
      && |ReadAddresses(words, base, offsets)| == e.level + 1
      && ReadAddresses(words, base, offsets)[e.level] == e.address
      && e.address !in words
  {
    var path := WalkFollowsPath(words, base, offsets, 0);
  }

  /**
   * Conversely, a path of successful reads over every offset fixes the
   * outcome: the walk returns its last address after reading at each of the others.
   */
  lemma {:induction false} CompletePathResolves(words: map<int, U64>, base: int, offsets: seq<int>, path: seq<int>)
    requires IsPath(words, base, offsets, path) && |path| == |offsets| + 1
    ensures Resolve(words, base, offsets) == Ok(path[|offsets|])
    ensures ReadAddresses(words, base, offsets) == path[..|offsets|]
  {
    var walked := WalkFollowsPath(words, base, offsets, 0);
    PathsAgree(words, base, offsets, path, walked);
  }

  /** Two paths from the same base agree on the levels both reach. */
  lemma PathsAgree(words: map<int, U64>, base: int, offsets: seq<int>, p: seq<int>, q: seq<int>)
    requires IsPath(words, base, offsets, p) && IsPath(words, base, offsets, q)
    ensures forall i :: 0 <= i < |p| && i < |q| ==> p[i] == q[i]
  {
    var k := 0;
    while k + 1 < |p| && k + 1 < |q|
      invariant 0 <= k < |p| && k < |q|
      invariant forall i :: 0 <= i <= k ==> p[i] == q[i]
    {
      assert p[k + 1] == words[p[k]] + offsets[k] == q[k + 1];
      k := k + 1;
    }
  }

  /**
   * `read_pointer_chain` as the source writes it: a loop that reassigns the
   * current address once per offset. Returns the outcome and the addresses
   * read, in order.
   */
  method ReadPointerChain(words: map<int, U64>, baseAddress: int, offsets: seq<int>)
    returns (result: Result<int, ChainError>, readLog: seq<int>)
    ensures result == Resolve(words, baseAddress, offsets)
    ensures readLog == ReadAddresses(words, baseAddress, offsets)
  {
    var addr := baseAddress;
    readLog := [];
    var i := 0;
    while i < |offsets|
      invariant 0 <= i <= |offsets|
      invariant Walk(words, addr, offsets[i..], i) == Resolve(words, baseAddress, offsets)
      invariant readLog + ReadAddresses(words, addr, offsets[i..]) == ReadAddresses(words, baseAddress, offsets)
    {
      WalkStep(words, addr, offsets, i);
      readLog := readLog + [addr];
      if addr !in words {
        return Err(ReadFailed(i, addr)), readLog;
      }
      addr := words[addr] + offsets[i];
      i := i + 1;
    }
    result := Ok(addr);
  }

  /**
   * One level of the walk from `addr` at level `i`: an unreadable address
   * ends it with that level's error after one read; otherwise the walk
   * continues from the word read plus the offset.
   */
  lemma WalkStep(words: map<int, U64>, addr: int, offsets: seq<int>, i: nat)
    requires i < |offsets|
    ensures addr !in words ==>
      Walk(words, addr, offsets[i..], i) == Err(ReadFailed(i, addr)) && ReadAddresses(words, addr, offsets[i..]) == [addr]
    ensures addr in words ==>
      && Walk(words, addr, offsets[i..], i) == Walk(words, words[addr] + offsets[i], offsets[i + 1..], i + 1)
      && ReadAddresses(words, addr, offsets[i..]) == [addr] + ReadAddresses(words, words[addr] + offsets[i], offsets[i + 1..])
  {
    assert offsets[i..][0] == offsets[i] && offsets[i..][1..] == offsets[i + 1..];
  }

  /** A null pointer read is followed like any other: the next address is just the offset. */
  lemma NullPointerIsFollowed(words: map<int, U64>, base: int, offsets: seq<int>)
    requires offsets != [] && base in words && words[base] == 0
    ensures Resolve(words, base, offsets) == Walk(words, offsets[0], offsets[1..], 1)
  {
  }

  /** The text of the `RuntimeError`: `f"Failed to read pointer at level {i} (address: {hex(addr)})"`. */
  function Message(e: ChainError): string {
    "Failed to read pointer at level " + (PyInt.PyStr(e.level) + AddressPart(e.address))
  }

  /** The tail of the message: ` (address: 0x…)`. */
  function AddressPart(address: int): string {
    " (address: " + (PyInt.PyHex(address) + ")")
  }

  /** The message names the failure unambiguously: equal messages mean the same level and address. */
  lemma MessageIdentifiesFailure(e1: ChainError, e2: ChainError)
    requires Message(e1) == Message(e2)
    ensures e1 == e2
  {
    MessageParts(e1, e2);
    PyInt.DecimalRoundTrip(e1.level);
    PyInt.DecimalRoundTrip(e2.level);
    PyInt.HexRoundTrip(e1.address);
    PyInt.HexRoundTrip(e2.address);
  }

  /** Equal messages carry the same numeral and the same hexadecimal text. */
  lemma MessageParts(e1: ChainError, e2: ChainError)
    requires Message(e1) == Message(e2)
    ensures PyInt.PyStr(e1.level) == PyInt.PyStr(e2.level)
    ensures PyInt.PyHex(e1.address) == PyInt.PyHex(e2.address)
  {
    var d1, d2 := PyInt.PyStr(e1.level), PyInt.PyStr(e2.level);
    var x1, x2 := AddressPart(e1.address), AddressPart(e2.address);
    SplitAt("Failed to read pointer at level ", d1 + x1, "Failed to read pointer at level ", d2 + x2);
    NumeralLength(e1.level, x1);
    NumeralLength(e2.level, x2);
    SplitAt(d1, x1, d2, x2);
    SplitAt(" (address: ", PyInt.PyHex(e1.address) + ")", " (address: ", PyInt.PyHex(e2.address) + ")");
    SplitAt(PyInt.PyHex(e1.address), ")", PyInt.PyHex(e2.address), ")");
  }

  /** Equal concatenations with equal-length first parts have equal parts. */
  lemma SplitAt(a: string, x: string, b: string, y: string)
    requires a + x == b + y && |a| == |b|
    ensures a == b && x == y
  {
    assert a == (a + x)[..|a|] && b == (b + y)[..|b|];
    assert x == (a + x)[|a|..] && y == (b + y)[|b|..];
  }

  /** The length of the run of decimal digits at the start of `s`. */
  function DigitRun(s: string): nat {
    if s != [] && PyInt.IsDigit(s[0], 10) then 1 + DigitRun(s[1..]) else 0
  }

  /** A numeral followed by a space: the digit run is exactly the numeral. */
  lemma {:induction false} NumeralLength(n: nat, rest: string)
    requires rest != [] && rest[0] == ' '
    ensures DigitRun(PyInt.PyStr(n) + rest) == |PyInt.PyStr(n)|
  {
    DigitRunOf(PyInt.Digits(n, 10), rest);
  }

  lemma {:induction false} DigitRunOf(d: string, rest: string)
    requires forall i :: 0 <= i < |d| ==> PyInt.IsDigit(d[i], 10)
    requires rest != [] && rest[0] == ' '
    ensures DigitRun(d + rest) == |d|
  {
    if d != [] {
      assert (d + rest)[1..] == d[1..] + rest;
      DigitRunOf(d[1..], rest);
    }
  }
}
