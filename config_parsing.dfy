/**
 * `parse_address` and `parse_offsets` of src/memory_reader.py: the readers of
 * the pointer-chain settings, which arrive as text such as `"0x064D8FD0"` and
 * `"0x30, 0x940, 0x5D0"`. A `0x`/`0X` prefix selects base 16, anything else
 * base 10; malformed text is never an error to the caller.
 */
module ConfigParsing {
  import opened Wrappers
  import opened PyText
  import opened PyInt

  /** One number as both parsers read it: `int(t, 16)` after a hex prefix, `int(t)` otherwise. */
  function ParseInteger(t: string): Option<int> {
    if HasHexPrefix(t) then ParseInt(t, 16) else ParseInt(t, 10)
  }

  /** `parse_address`: the number the text spells, or 0 when `int()` raises. */
  function ParseAddress(s: string): (r: int)
    ensures ParseInteger(s).Some? ==> r == ParseInteger(s).value
    ensures ParseInteger(s).None? ==> r == 0
  {
    ParseInteger(s).GetOr(0)
  }

  /** One entry of the offsets list: stripped, then read as a number. */
  function ParseEntry(entry: string): Option<int> {
    ParseInteger(Strip(entry))
  }

  /**
   * The offsets `parse_offsets` keeps from a list of comma-separated entries:
   * each entry is parsed, and the first entry that does not parse ends the
   * list (the `try` encloses the whole loop).
   */
  function ParsedEntries(entries: seq<string>, parse: string -> Option<int>): seq<int> {
    if entries == [] then []
    else match parse(entries[0])
      case None => []
      case Some(v) => [v] + ParsedEntries(entries[1..], parse)
  }

  /** What `parse_offsets(s)` returns. */
  function ParsedOffsets(s: string): seq<int> {
    ParsedEntries(Split(s, ','), ParseEntry)
  }

  /**
   * `parse_offsets` as the source writes it: split on commas, then the loop of
   * `AppendParsed` over the entries with the strip-and-`int()` step.
   */
  method ParseOffsets(s: string) returns (offsets: seq<int>)
    ensures offsets == ParsedOffsets(s)
  {
    var entries := Split(s, ',');
    offsets := AppendParsed(entries, ParseEntry);
  }

  /**
   * The loop of `parse_offsets`: append one value per entry, and leave the
   * loop at the first entry whose parse raises.
   */
  method AppendParsed(entries: seq<string>, parse: string -> Option<int>) returns (offsets: seq<int>)
    ensures offsets == ParsedEntries(entries, parse)
  {
    offsets := [];
    var i := 0;
    while i < |entries|
      invariant 0 <= i <= |entries|
      invariant offsets + ParsedEntries(entries[i..], parse) == ParsedEntries(entries, parse)
    {
      var parsed := parse(entries[i]);
      assert entries[i..][1..] == entries[i + 1..];
      if parsed.None? {
        assert ParsedEntries(entries[i..], parse) == [];
        return;
      }
      assert (offsets + [parsed.value]) + ParsedEntries(entries[i + 1..], parse)
        == offsets + ([parsed.value] + ParsedEntries(entries[i + 1..], parse));
      offsets := offsets + [parsed.value];
      i := i + 1;
    }
  }

  /**
   * The kept offsets are the parses of the leading entries, in order, and
   * when fewer offsets than entries come back, the entry after the last kept
   * one is the one that did not parse.
   */
  lemma {:induction false} ParsedEntriesArePrefix(entries: seq<string>, parse: string -> Option<int>)
    ensures |ParsedEntries(entries, parse)| <= |entries|
    ensures forall i :: 0 <= i < |ParsedEntries(entries, parse)| ==>
      parse(entries[i]) == Some(ParsedEntries(entries, parse)[i])
    ensures |ParsedEntries(entries, parse)| < |entries| ==>
      parse(entries[|ParsedEntries(entries, parse)|]) == None
  {
    if entries != [] && parse(entries[0]).Some? {
      ParsedEntriesArePrefix(entries[1..], parse);
    }
  }

  /** When every entry parses, every entry is kept. */
  lemma {:induction false} AllEntriesParse(entries: seq<string>, parse: string -> Option<int>, values: seq<int>)
    requires |entries| == |values|
    requires forall i :: 0 <= i < |entries| ==> parse(entries[i]) == Some(values[i])
    ensures ParsedEntries(entries, parse) == values
  {
    if entries != [] {
      AllEntriesParse(entries[1..], parse, values[1..]);
    }
  }

  /** An empty setting has one empty entry, which does not parse: no offsets. */
  lemma EmptyTextHasNoOffsets()
    ensures ParsedOffsets("") == []
  {
    assert Split("", ',') == [""];
    assert ParseEntry("") == None;
  }

  /** `hex()` output reads back: `parse_address(hex(n)) == n` for every address n >= 0. */
  lemma HexAddressRoundTrip(n: nat)
    ensures ParseInteger(PyHex(n)) == Some(n)
    ensures ParseAddress(PyHex(n)) == n
  {
    assert HasHexPrefix(PyHex(n)) by {
      assert PyHex(n) == "0x" + Digits(n, 16);
    }
    HexRoundTrip(n);
    AddressFromInteger(PyHex(n), 16, n);
  }

  /** Decimal text reads back too, negative numbers included. */
  lemma DecimalAddressRoundTrip(n: int)
    ensures ParseAddress(PyStr(n)) == n
  {
    assert !HasHexPrefix(PyStr(n)) by {
      var s := PyStr(n);
      var d := Digits(if n < 0 then -n else n, 10);
      if n >= 0 && |d| >= 2 {
        assert s == d && IsDigit(d[1], 10);
      }
    }
    DecimalRoundTrip(n);
    AddressFromInteger(PyStr(n), 10, n);
  }

  /** Text read in the base its prefix selects gives that address. */
  lemma AddressFromInteger(s: string, base: Base, v: int)
    requires (base == 16 <==> HasHexPrefix(s)) && ParseInt(s, base) == Some(v)
    ensures ParseInteger(s) == Some(v) && ParseAddress(s) == v
  {
  }

  /** The hex renderings of a list of offsets, joined with commas. */
  function HexList(offsets: seq<nat>): (s: string) {
    Join(HexEntries(offsets), ',')
  }

  /** `[hex(o) for o in offsets]`. */
  function HexEntries(offsets: seq<nat>): (r: seq<string>)
    ensures |r| == |offsets|
    ensures forall i :: 0 <= i < |r| ==> r[i] == PyHex(offsets[i])
  {
    if offsets == [] then [] else [PyHex(offsets[0])] + HexEntries(offsets[1..])
  }

  /** `parse_offsets(",".join(hex(o) for o in offsets)) == offsets` for non-negative offsets. */
  lemma HexListRoundTrip(offsets: seq<nat>)
    ensures ParsedOffsets(HexList(offsets)) == offsets
  {
    var entries := HexEntries(offsets);
    if offsets == [] {
      EmptyTextHasNoOffsets();
    } else {
      forall i | 0 <= i < |entries|
        ensures ',' !in entries[i] && ParseEntry(entries[i]) == Some(offsets[i])
      {
        HexHasNoComma(offsets[i]);
        StripHex(offsets[i]);
        HexAddressRoundTrip(offsets[i]);
      }
      SplitJoin(entries, ',');
      AllEntriesParse(entries, ParseEntry, offsets);
    }
  }

  /** `hex(n)` has no surrounding whitespace. */
  lemma StripHex(n: nat)
    ensures Strip(PyHex(n)) == PyHex(n)
  {
    var h := PyHex(n);
    assert h != [] && !IsStrSpace(h[0]) && !IsStrSpace(h[|h| - 1]) by {
      var d := Digits(n, 16);
      assert h == "0x" + d;
      assert h[|h| - 1] == d[|d| - 1] && IsDigit(d[|d| - 1], 16);
    }
    StripUnchanged(h);
  }

  /** `hex(n)` contains no comma. */
  lemma HexHasNoComma(n: nat)
    ensures ',' !in PyHex(n)
  {
    var d := Digits(n, 16);
    assert PyHex(n) == "0x" + d;
    assert forall i :: 0 <= i < |d| ==> IsDigit(d[i], 16);
  }
}
