/**
 * The `MemoryReader` worker of src/memory_reader.py: the attachment state it
 * keeps (`_pm`, `_module_base`, `_max_health_initialized`, `_attach_printed`,
 * `_enabled`, `_process_running`), the max-health reading through the
 * configured pointer chain, and one pass of its reading loop. The pymem
 * calls are oracle results passed in: what opening the process does, what
 * the module lookup returns, and the memory of the target process.
 */
module MemoryReaderWorker {
  import opened Wrappers
  import opened FloatBits
  import opened ProcessMemory
  import opened PointerChain
  import opened ConfigParsing
  import opened TypedReads
  import PyInt
  import MaxHealthProbe

  /** An open pymem handle; only its identity matters here. */
  datatype Handle = Handle(id: nat)

  /** What `pymem.Pymem(process_name)` does: open the process, or raise. */
  datatype OpenOutcome = Opened(handle: Handle) | ProcessNotFound | OpenFailed

  /**
   * What `config.get_max_health_base_offset()` and
   * `config.get_max_health_offsets()` give: the text, or `None` where the
   * getter raises.
   */
  datatype ChainSettings = ChainSettings(baseOffset: Option<string>, offsets: Option<string>)

  /** The fields `_attach_to_process` reads and writes. */
  datatype Attachment = Attachment(pm: Option<Handle>, moduleBase: Option<int>, attachPrinted: bool)

  /** The fields after `_attach_to_process`, and what it returns. */
  datatype AttachResult = AttachResult(after: Attachment, attached: bool)

  /**
   * `_attach_to_process`. `opening` is what `pymem.Pymem` would do and
   * `lookup` what `get_module_base_address` returns (it never raises).
   */
  function AttachStep(a: Attachment, opening: OpenOutcome, lookup: Option<int>): (r: AttachResult)
    // An open handle is kept and the call succeeds, whatever the lookup gives.
    ensures a.pm.Some? ==> r.attached && r.after.pm == a.pm && r.after.attachPrinted == a.attachPrinted
    // Only a missing module base is looked up again.
    ensures a.pm.Some? && a.moduleBase.Some? ==> r.after == a
    ensures a.pm.Some? && a.moduleBase.None? ==> r.after.moduleBase == lookup
    // Opening raised: neither a handle nor a base remains.
    ensures a.pm.None? && !opening.Opened? ==>
      !r.attached && r.after.pm.None? && r.after.moduleBase.None? && r.after.attachPrinted == a.attachPrinted
    // A fresh handle is kept even when its module lookup fails.
    ensures a.pm.None? && opening.Opened? ==>
      r.after.pm == Some(opening.handle) && r.after.moduleBase == lookup && (r.attached <==> lookup.Some?)
    ensures r.attached ==> r.after.pm.Some?
    ensures !r.attached ==> r.after.moduleBase.None?
    ensures r.after.attachPrinted <==> a.attachPrinted || (a.pm.None? && opening.Opened? && lookup.Some?)
  {
    if a.pm.Some? then
      if a.moduleBase.None? then AttachResult(a.(moduleBase := lookup), true)
      else AttachResult(a, true)
    else match opening
      case Opened(h) =>
        if lookup.Some? then AttachResult(Attachment(Some(h), lookup, true), true)
        else AttachResult(Attachment(Some(h), None, a.attachPrinted), false)
      case _ => AttachResult(Attachment(None, None, a.attachPrinted), false)
  }

  /**
   * What `_read_max_health` returns, as the bit pattern of the double: 0.0
   * without a handle or a module base, when a getter raises, and when the
   * base offset parses to 0 or the offsets to an empty list; otherwise the
   * chain reading from the module base plus the base offset.
   */
  function MaxHealthReading(pm: Option<Handle>, moduleBase: Option<int>, settings: ChainSettings, mem: Memory): Double {
    if pm.None? || moduleBase.None? then PositiveZero
    else if settings.baseOffset.None? || settings.offsets.None? then PositiveZero
    else
      var baseOffset := ParseAddress(settings.baseOffset.value);
      var offsets := ParsedOffsets(settings.offsets.value);
      if baseOffset == 0 || offsets == [] then PositiveZero
      else ChainReading(moduleBase.value, baseOffset, offsets, mem)
  }

  /**
   * The `try` body of `_read_max_health` after parsing: walk the chain from
   * `moduleBase + baseOffset`, then `read_memory_double` at its end; 0.0 when the walk raises.
   */
  function ChainReading(moduleBase: int, baseOffset: int, offsets: seq<int>, mem: Memory): (d: Double)
    ensures Resolve(mem.qwords, moduleBase + baseOffset, offsets).Err? ==> d == PositiveZero
  {
    match Resolve(mem.qwords, moduleBase + baseOffset, offsets)
    case Err(_) => PositiveZero
    case Ok(final) => ReadMemoryDouble(mem, final)
  }

  /**
   * A chain reading other than +0.0 is the word at the end of a complete
   * walk: one pointer read per offset, the first at `moduleBase + baseOffset`,
   * ending at a nonzero readable address.
   */
  lemma ChainReadingComesFromWalk(moduleBase: int, baseOffset: int, offsets: seq<int>, mem: Memory)
    requires offsets != [] && ChainReading(moduleBase, baseOffset, offsets, mem) != PositiveZero
    ensures Resolve(mem.qwords, moduleBase + baseOffset, offsets).Ok?
    ensures |ReadAddresses(mem.qwords, moduleBase + baseOffset, offsets)| == |offsets|
    ensures ReadAddresses(mem.qwords, moduleBase + baseOffset, offsets)[0] == moduleBase + baseOffset
    ensures
      var final := Resolve(mem.qwords, moduleBase + baseOffset, offsets).value;
      final != 0 && final in mem.qwords && mem.qwords[final] == ChainReading(moduleBase, baseOffset, offsets, mem)
  {
    ReadCount(mem.qwords, moduleBase + baseOffset, offsets);
  }

  /**
   * Conversely, a complete read path from `moduleBase + baseOffset` that
   * ends at a nonzero readable address gives the word stored there.
   */
  lemma ChainReadingOfCompletePath(moduleBase: int, baseOffset: int, offsets: seq<int>, mem: Memory, path: seq<int>)
    requires IsPath(mem.qwords, moduleBase + baseOffset, offsets, path) && |path| == |offsets| + 1
    requires path[|offsets|] != 0 && path[|offsets|] in mem.qwords
    ensures ChainReading(moduleBase, baseOffset, offsets, mem) == mem.qwords[path[|offsets|]]
  {
    CompletePathResolves(mem.qwords, moduleBase + baseOffset, offsets, path);
  }

  /** The four cases in which `_read_max_health` returns 0.0 without walking the chain. */
  lemma MaxHealthZeroCases(pm: Option<Handle>, moduleBase: Option<int>, settings: ChainSettings, mem: Memory)
    ensures pm.None? || moduleBase.None? ==> MaxHealthReading(pm, moduleBase, settings, mem) == PositiveZero
    ensures settings.baseOffset.None? || settings.offsets.None? ==> MaxHealthReading(pm, moduleBase, settings, mem) == PositiveZero
    ensures settings.baseOffset.Some? && ParseAddress(settings.baseOffset.value) == 0 ==>
      MaxHealthReading(pm, moduleBase, settings, mem) == PositiveZero
    ensures settings.offsets.Some? && ParsedOffsets(settings.offsets.value) == [] ==>
      MaxHealthReading(pm, moduleBase, settings, mem) == PositiveZero
  {
  }

  /**
   * A reading other than +0.0 comes from both settings, a nonzero base
   * offset and a nonempty offsets list, walked from the module base plus
   * the base offset (what that walk does is `ChainReadingComesFromWalk`).
   */
  lemma MaxHealthComesFromChain(pm: Option<Handle>, moduleBase: Option<int>, settings: ChainSettings, mem: Memory)
    requires MaxHealthReading(pm, moduleBase, settings, mem) != PositiveZero
    ensures pm.Some? && moduleBase.Some? && settings.baseOffset.Some? && settings.offsets.Some?
    ensures ParseAddress(settings.baseOffset.value) != 0 && ParsedOffsets(settings.offsets.value) != []
    ensures MaxHealthReading(pm, moduleBase, settings, mem)
      == ChainReading(moduleBase.value, ParseAddress(settings.baseOffset.value), ParsedOffsets(settings.offsets.value), mem)
  {
  }

  /**
   * Conversely, with a handle, a module base, a nonzero base offset and a
   * nonempty offsets list, the reading is the chain reading.
   */
  lemma MaxHealthWalksChain(pm: Option<Handle>, moduleBase: Option<int>, settings: ChainSettings, mem: Memory,
                            baseOffset: int, offsets: seq<int>)
    requires pm.Some? && moduleBase.Some? && settings.baseOffset.Some? && settings.offsets.Some?
    requires baseOffset == ParseAddress(settings.baseOffset.value) && baseOffset != 0
    requires offsets == ParsedOffsets(settings.offsets.value) && offsets != []
    ensures MaxHealthReading(pm, moduleBase, settings, mem) == ChainReading(moduleBase.value, baseOffset, offsets, mem)
  {
  }

  /** The chain reading once the walk from `start` has given `final`. */
  lemma ChainReadingAfterWalk(moduleBase: int, baseOffset: int, offsets: seq<int>, mem: Memory,
                              start: int, final: Result<int, ChainError>)
    requires start == moduleBase + baseOffset && final == Resolve(mem.qwords, start, offsets)
    ensures ChainReading(moduleBase, baseOffset, offsets, mem)
      == if final.Err? then PositiveZero else ReadMemoryDouble(mem, final.value)
  {
  }

  /** The settings the shipped `Config` class supplies: it has neither getter, so both raise. */
  const ShippedSettings: ChainSettings := ChainSettings(None, None)

  /** With the shipped settings `_read_max_health` returns 0.0 whatever the process holds. */
  lemma ShippedSettingsNeverReadMaxHealth(pm: Option<Handle>, moduleBase: Option<int>, mem: Memory)
    ensures MaxHealthReading(pm, moduleBase, ShippedSettings, mem) == PositiveZero
    ensures !IsPositive(MaxHealthReading(pm, moduleBase, ShippedSettings, mem))
  {
  }

  /**
   * Getters that return the max-health chain of src/standalone/max_health.py,
   * written as `hex()` text.
   */
  const IntendedSettings: ChainSettings :=
    ChainSettings(Some(PyInt.PyHex(MaxHealthProbe.BASE_OFFSET)), Some(HexList(MaxHealthProbe.OFFSETS)))

  /**
   * Walking the standalone script's chain from a module base: a nonzero
   * reading is the script's value, and where the script's walk or final
   * read fails the reading is 0.0.
   */
  lemma ChainReadingMatchesProbe(moduleBase: int, mem: Memory)
    ensures
      var d := ChainReading(moduleBase, MaxHealthProbe.BASE_OFFSET, MaxHealthProbe.OFFSETS, mem);
      && (d != PositiveZero ==> MaxHealthProbe.Probe(moduleBase, mem) == Ok(d))
      && (MaxHealthProbe.Probe(moduleBase, mem).Err? ==> d == PositiveZero)
  {
  }

  /** With those getters the worker walks the standalone script's chain. */
  lemma IntendedSettingsFollowProbe(h: Handle, moduleBase: int, mem: Memory)
    ensures MaxHealthReading(Some(h), Some(moduleBase), IntendedSettings, mem)
      == ChainReading(moduleBase, MaxHealthProbe.BASE_OFFSET, MaxHealthProbe.OFFSETS, mem)
  {
    HexAddressRoundTrip(MaxHealthProbe.BASE_OFFSET);
    HexListRoundTrip(MaxHealthProbe.OFFSETS);
  }

  /** What one pass of `_reading_loop` does. */
  datatype TickOutcome =
    | Stopped                                   // `_running` is false: the loop has ended
    | Paused                                    // process not running or reading disabled: sleep 0.1 s
    | NotAttached                               // `_attach_to_process` failed: sleep 0.5 s
    | Polled(maxHealthUpdate: Option<Double>)   // read; `max_health_updated` emitted with the value if it is > 0

  /** The reader thread's state, `MemoryReader` in src/memory_reader.py. */
  class MemoryReader {
    const config: ChainSettings
    const processName: string
    const potionKey: string
    var running: bool
    /** How many reading threads `start` has launched. */
    var threadsStarted: nat
    var pm: Option<Handle>
    var enabled: bool
    var processRunning: bool
    var moduleBase: Option<int>
    var maxHealthInitialized: bool
    var attachPrinted: bool
    /** How many handles have been opened, and under which one the module base was looked up. */
    ghost var handleSession: nat
    ghost var baseSession: nat

    /** A cached module base always belongs to the handle that is open now. */
    ghost predicate Valid()
      reads this
    {
      pm.Some? && moduleBase.Some? ==> baseSession == handleSession
    }

    /** The attachment fields as one value. */
    function Attached(): Attachment
      reads this
    {
      Attachment(pm, moduleBase, attachPrinted)
    }

    constructor (config: ChainSettings, processName: string, potionKey: string)
      ensures Valid()
      ensures this.config == config && this.processName == processName && this.potionKey == potionKey
      ensures !running && threadsStarted == 0 && pm.None? && enabled && !processRunning
      ensures moduleBase.None? && !maxHealthInitialized && !attachPrinted
    {
      this.config := config;
      this.processName := processName;
      this.potionKey := potionKey;
      running := false;
      threadsStarted := 0;
      pm := None;
      enabled := true;
      processRunning := false;
      moduleBase := None;
      maxHealthInitialized := false;
      attachPrinted := false;
      handleSession := 0;
      baseSession := 0;
    }

    /** `set_enabled`: pauses or resumes reading. */
    method SetEnabled(enabled: bool)
      requires Valid()
      modifies this
      ensures Valid()
      ensures this.enabled == enabled
      ensures Attached() == old(Attached()) && running == old(running) && processRunning == old(processRunning)
      ensures maxHealthInitialized == old(maxHealthInitialized) && threadsStarted == old(threadsStarted)
    {
      this.enabled := enabled;
    }

    /** `_close_process`: closes the handle if there is one and always leaves none; returns the handle it closed. */
    method CloseProcess() returns (closed: Option<Handle>)
      requires Valid()
      modifies this
      ensures Valid()
      ensures closed == old(pm) && pm.None?
      ensures moduleBase == old(moduleBase) && attachPrinted == old(attachPrinted)
      ensures running == old(running) && enabled == old(enabled) && processRunning == old(processRunning)
      ensures maxHealthInitialized == old(maxHealthInitialized) && threadsStarted == old(threadsStarted)
    {
      closed := pm;
      pm := None;
    }

    /**
     * `set_process_running`: records the status; when the process is gone,
     * closes the handle and forgets the module base and both one-time flags.
     */
    method SetProcessRunning(isRunning: bool)
      requires Valid()
      modifies this
      ensures Valid()
      ensures processRunning == isRunning
      ensures isRunning ==> Attached() == old(Attached()) && maxHealthInitialized == old(maxHealthInitialized)
      ensures !isRunning ==> pm.None? && moduleBase.None? && !maxHealthInitialized && !attachPrinted
      ensures running == old(running) && enabled == old(enabled) && threadsStarted == old(threadsStarted)
    {
      processRunning := isRunning;
      if !isRunning {
        var _ := CloseProcess();
        moduleBase := None;
        maxHealthInitialized := false;
        attachPrinted := false;
      }
    }

    /** `start`: launches the reading thread unless one is already running. */
    method Start()
      requires Valid()
      modifies this
      ensures Valid()
      ensures running
      ensures threadsStarted == if old(running) then old(threadsStarted) else old(threadsStarted) + 1
      ensures Attached() == old(Attached()) && enabled == old(enabled) && processRunning == old(processRunning)
      ensures maxHealthInitialized == old(maxHealthInitialized)
    {
      if running {
        return;
      }
      running := true;
      threadsStarted := threadsStarted + 1;
    }

    /**
     * `stop`: ends the loop and closes the handle. The module base is left
     * as it was; `Valid` shows it is never used with a later handle.
     */
    method Stop()
      requires Valid()
      modifies this
      ensures Valid()
      ensures !running && pm.None?
      ensures moduleBase == old(moduleBase) && attachPrinted == old(attachPrinted)
      ensures enabled == old(enabled) && processRunning == old(processRunning)
      ensures maxHealthInitialized == old(maxHealthInitialized) && threadsStarted == old(threadsStarted)
    {
      running := false;
      var _ := CloseProcess();
    }

    /** `_attach_to_process`, with the pymem results as parameters. */
    method AttachToProcess(opening: OpenOutcome, lookup: Option<int>) returns (attached: bool)
      requires Valid()
      modifies this
      ensures Valid()
      ensures AttachResult(Attached(), attached) == AttachStep(old(Attached()), opening, lookup)
      ensures running == old(running) && enabled == old(enabled) && processRunning == old(processRunning)
      ensures maxHealthInitialized == old(maxHealthInitialized) && threadsStarted == old(threadsStarted)
    {
      if pm.Some? {
        if moduleBase.None? {
          moduleBase := lookup;
          baseSession := handleSession;
        }
        return true;
      }
      match opening {
        case Opened(h) =>
          pm := Some(h);
          handleSession := handleSession + 1;
          moduleBase := lookup;
          baseSession := handleSession;
          if moduleBase.Some? {
            attachPrinted := true;
          } else {
            return false;
          }
          return true;
        case _ =>
          pm := None;
          moduleBase := None;
          return false;
      }
    }

    /**
     * `_initialize_max_health_pointer`: repeats the reading once with
     * diagnostics and sets `_max_health_initialized` as soon as it is
     * positive. It never raises: the final read cannot, the rest is caught.
     */
    method InitializeMaxHealthPointer(mem: Memory)
      requires Valid()
      modifies this
      ensures Valid()
      ensures maxHealthInitialized == (old(maxHealthInitialized) || IsPositive(MaxHealthReading(pm, moduleBase, config, mem)))
      ensures Attached() == old(Attached()) && running == old(running)
      ensures enabled == old(enabled) && processRunning == old(processRunning) && threadsStarted == old(threadsStarted)
    {
      if maxHealthInitialized {
        return;
      }
      if pm.None? || moduleBase.None? {
        return;
      }
      if config.baseOffset.None? || config.offsets.None? {
        return;
      }
      var baseOffset := ParseAddress(config.baseOffset.value);
      if baseOffset == 0 {
        return;
      }
      var offsets := ParseOffsets(config.offsets.value);
      if offsets == [] {
        return;
      }
      MaxHealthWalksChain(pm, moduleBase, config, mem, baseOffset, offsets);
      var baseAddress := moduleBase.value + baseOffset;
      var final, _ := ReadPointerChain(mem.qwords, baseAddress, offsets);
      ChainReadingAfterWalk(moduleBase.value, baseOffset, offsets, mem, baseAddress, final);
      if final.Err? {
        return;
      }
      var maxHealth := ReadMemoryDouble(mem, final.value);
      if IsPositive(maxHealth) {
        maxHealthInitialized := true;
      }
    }

    /**
     * `_read_max_health`: the reading, with the one-time initialisation
     * before it. The two walk the process at different moments, so the
     * initialisation sees the memory `initMem` and the reading `mem`.
     */
    method ReadMaxHealth(initMem: Memory, mem: Memory) returns (maxHealth: Double)
      requires Valid()
      modifies this
      ensures Valid()
      ensures maxHealth == MaxHealthReading(pm, moduleBase, config, mem)
      ensures maxHealthInitialized == (old(maxHealthInitialized) || IsPositive(MaxHealthReading(pm, moduleBase, config, initMem)))
      ensures Attached() == old(Attached()) && running == old(running)
      ensures enabled == old(enabled) && processRunning == old(processRunning) && threadsStarted == old(threadsStarted)
    {
      if pm.None? || moduleBase.None? {
        return PositiveZero;
      }
      if !maxHealthInitialized {
        InitializeMaxHealthPointer(initMem);
      }
      if config.baseOffset.None? || config.offsets.None? {
        return PositiveZero;
      }
      var baseOffset := ParseAddress(config.baseOffset.value);
      if baseOffset == 0 {
        return PositiveZero;
      }
      var offsets := ParseOffsets(config.offsets.value);
      if offsets == [] {
        return PositiveZero;
      }
      MaxHealthWalksChain(pm, moduleBase, config, mem, baseOffset, offsets);
      var baseAddress := moduleBase.value + baseOffset;
      var final, _ := ReadPointerChain(mem.qwords, baseAddress, offsets);
      ChainReadingAfterWalk(moduleBase.value, baseOffset, offsets, mem, baseAddress, final);
      if final.Err? {
        return PositiveZero;
      }
      maxHealth := ReadMemoryDouble(mem, final.value);
    }

    /**
     * One pass of `_reading_loop`: the loop guard, the gating on the process
     * status and the enabled flag, the attach, and the max-health reading,
     * which is emitted only when it is > 0.
     */
    method ReadingStep(opening: OpenOutcome, lookup: Option<int>, initMem: Memory, mem: Memory) returns (outcome: TickOutcome)
      requires Valid()
      modifies this
      ensures Valid()
      ensures !old(running) ==> outcome == Stopped && Attached() == old(Attached())
      ensures old(running) && !(old(processRunning) && old(enabled)) ==> outcome == Paused && Attached() == old(Attached())
      ensures old(running) && old(processRunning) && old(enabled) ==>
        && Attached() == AttachStep(old(Attached()), opening, lookup).after
        && (outcome == NotAttached <==> !AttachStep(old(Attached()), opening, lookup).attached)
        && (outcome.Polled? <==> AttachStep(old(Attached()), opening, lookup).attached)
      ensures outcome.Polled? ==>
        var reading := MaxHealthReading(pm, moduleBase, config, mem);
        && outcome.maxHealthUpdate == (if IsPositive(reading) then Some(reading) else None)
        && maxHealthInitialized == (old(maxHealthInitialized) || IsPositive(MaxHealthReading(pm, moduleBase, config, initMem)))
      ensures !outcome.Polled? ==> maxHealthInitialized == old(maxHealthInitialized)
      ensures running == old(running) && enabled == old(enabled) && processRunning == old(processRunning)
      ensures threadsStarted == old(threadsStarted)
    {
      if !running {
        return Stopped;
      }
      if !processRunning || !enabled {
        return Paused;
      }
      var attached := AttachToProcess(opening, lookup);
      if !attached {
        return NotAttached;
      }
      var maxHealth := ReadMaxHealth(initMem, mem);
      if IsPositive(maxHealth) {
        outcome := Polled(Some(maxHealth));
      } else {
        outcome := Polled(None);
      }
    }
  }
}
