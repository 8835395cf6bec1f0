# AutoPot-DR core, modelled in Dafny

AutoPot-DR is a Windows helper for a game. It attaches to the game process with pymem. It follows Cheat Engine style pointer chains to find the player's health values, and it shows a small always-on-top overlay with a status line and a potion log. This project models the parts of it that carry logic:

- **The pointer-chain walk** (`read_pointer_chain`), plus its copies in the three one-shot scripts and their chain constants. The target's memory is a partial map from address to word; a missing address is a read that raises. Modules `PointerChain`, `MaxHealthProbe`, `CurrentHealthProbe`, `PotionCountProbe`.
- **The settings parsers** `parse_address` and `parse_offsets`. They sit on an exact model of Python's `int()`, `hex()`, `str()`, `str.strip()`, `str.split()` and `str.join()` for the characters involved. Modules `ConfigParsing`, `PyInt`, `PyText`.
- **The zero-guarded typed reads** `read_memory_int/float/double`. Module `TypedReads`. Floats are IEEE-754 bit patterns; comparisons with zero are exact predicates on the bits. Module `FloatBits`.
- **The `MemoryReader` worker's state.** It is a class whose pymem calls are oracle arguments: the open outcome, the module lookup, and the memory. The class covers attaching, closing, the process-running and enabled flags, the max-health reading, and one pass of the reading loop. Module `MemoryReaderWorker`.
- **The overlay's state.** It covers the status rule, the toggles, the health clamps, the bounded potion log, and the lock check on dragging. Module `Overlay`.
- **The process detector.** It covers the exact-name process search and the change-only emission of the polling loop. Module `ProcessDetection`.

Paths below are relative to the repository root.

## Model

| member | source | states |
|---|---|---|
| PointerChain.WalkFollowsPath | src/memory_reader.py:29-40 | Every walk follows one path of successful reads. It succeeds exactly when the path covers every offset, returning its last address. Otherwise it fails at the first unreadable address, with an error naming that level and that address. Reads are made at the path's addresses in order, one per level reached, and none after a failure. |
| PointerChain.ReadCount | src/memory_reader.py:29-40 | A successful walk reads exactly once per offset, first at the base. A walk failing at level i has read i+1 times, last at the unreadable address its error names, and i < number of offsets. An empty offset list reads nothing. |
| PointerChain.CompletePathResolves | src/memory_reader.py:29-40 | Conversely, a chain of successful reads over all offsets determines the result: the walk returns its last address after reading at each of the others. |
| PointerChain.PathsAgree | src/memory_reader.py:34-38 | Two read paths from the same base agree on every level both reach: the walk is deterministic. |
| PointerChain.PathFromIsPath | src/memory_reader.py:31-38 | The addresses visited from a base, one per successful read, form a read path: each address is readable except possibly the last, and each next address is the pointer read there plus the offset. |
| PointerChain.WalkAlongPath | src/memory_reader.py:31-40 | The walk ends at the last visited address when every offset was followed. It fails at the first unreadable level, naming that address, otherwise. |
| PointerChain.ReadsAlongPath | src/memory_reader.py:31-38 | The reads the walk makes are the visited addresses, in order, leaving out the last one when the walk succeeds. |
| PointerChain.PathCons | src/memory_reader.py:34-38 | A readable base followed by a read path from the next address is a read path from the base. |
| PointerChain.WalkStep | src/memory_reader.py:31-38 | One iteration of the loop: an unreadable address fails at that level after one read. A readable one continues the walk from the pointer plus the offset, reading that address first. |
| PointerChain.ReadPointerChain | src/memory_reader.py:17-40 | The loop that reassigns the address once per offset returns exactly the recursive `Resolve` result and makes exactly the reads `ReadAddresses` lists. |
| PointerChain.NullPointerIsFollowed | src/memory_reader.py:34-38 | A pointer value of 0 is not rejected; the next address is just the offset. |
| PointerChain.MessageIdentifiesFailure | src/memory_reader.py:36 | The `RuntimeError` text determines the failed level and address: equal messages mean equal errors. |
| PointerChain.MessageParts | src/memory_reader.py:36 | Equal messages carry the same decimal level text and the same `hex()` address text. |
| MaxHealthProbe.ReadPointerChain | src/standalone/max_health.py:18-33 | The script's copy of the walk gives the same result and the same reads as `read_pointer_chain`, for every memory and chain. |
| MaxHealthProbe.Probe | src/standalone/max_health.py:57-71 | A value is reported exactly when the walk completes and its final address is readable. The value is the double stored there, read with no zero-address guard. It comes after exactly five pointer reads, the first at `module_base + 0x064D8FD0`. A chain failure names a level below 5. |
| MaxHealthProbe.ReportsEndOfPath | src/standalone/max_health.py:57-71 | A complete read path over the script's five offsets that ends at a readable address makes the script report the double stored there. |
| CurrentHealthProbe.ResolvePointerChain | src/current_health.py:18-34 | The script's walk gives the same result and reads as `read_pointer_chain`. |
| CurrentHealthProbe.Probe | src/current_health.py:58-71 | A value is reported exactly when the walk completes and its final address is readable. The value is the double stored there, read with no zero-address guard. It comes after exactly five pointer reads, the first at `module_base + 0x064D8FD0`. A chain failure names a level below 5. |
| CurrentHealthProbe.ReportsEndOfPath | src/current_health.py:58-71 | A complete read path over the script's five offsets that ends at a readable address makes the script report the double stored there. |
| PotionCountProbe.ResolvePointerChain | src/standalone/potion_count.py:16-32 | The script's walk gives the same result and reads as `read_pointer_chain`. |
| PotionCountProbe.Probe | src/standalone/potion_count.py:56-68 | A count is reported exactly when the walk completes and its final address is readable as 4 bytes. The count is that word as a signed 32-bit integer, read with no zero-address guard. It comes after exactly three pointer reads, the first at `module_base + 0x064D8FD0`. A chain failure names a level below 3. |
| PotionCountProbe.ReportsEndOfPath | src/standalone/potion_count.py:56-68 | A complete read path over the script's three offsets that ends at a readable address makes the script report the signed word stored there. |
| ConfigParsing.ParseAddress | src/memory_reader.py:61-76 | The result is the number `int()` reads in base 16 after a `0x`/`0X` prefix and in base 10 otherwise. It is 0 whenever `int()` raises. |
| ConfigParsing.HexAddressRoundTrip | src/memory_reader.py:71-74 | `parse_address(hex(n)) == n` for every non-negative n. |
| ConfigParsing.DecimalAddressRoundTrip | src/memory_reader.py:71-74 | `parse_address(str(n)) == n` for every integer n, negatives included. |
| ConfigParsing.AddressFromInteger | src/memory_reader.py:71-74 | A text that `int()` reads as v, in base 16 exactly when it has the `0x` prefix, is read as v by the number parse both parsers share, and `parse_address` returns v. |
| ConfigParsing.ParseOffsets | src/memory_reader.py:79-99 | The appending loop returns exactly `ParsedOffsets(s)`: one integer per comma-separated, stripped entry, stopping at the first entry that does not parse. |
| ConfigParsing.AppendParsed | src/memory_reader.py:89-99 | The loop over the entries appends each parsed value in order and stops at the first entry that does not parse, keeping what it has. |
| ConfigParsing.ParsedEntriesArePrefix | src/memory_reader.py:89-99 | The result is never longer than the entry list. Result i is the parse of entry i. If the result is shorter, the entry right after it is the one that failed to parse. |
| ConfigParsing.AllEntriesParse | src/memory_reader.py:91-96 | When every entry parses, every parsed value is kept, in order. |
| ConfigParsing.EmptyTextHasNoOffsets | src/memory_reader.py:89-99 | `parse_offsets("") == []`. |
| ConfigParsing.HexEntries | src/memory_reader.py:93-94 | The hex rendering of a list has one `hex()` entry per offset, in order (the input side of the round trip below). |
| ConfigParsing.HexListRoundTrip | src/memory_reader.py:79-99 | `parse_offsets(",".join(hex(o) for o in offsets)) == offsets` for non-negative offsets. |
| ConfigParsing.StripHex | src/memory_reader.py:92 | `hex(n)` is unchanged by `strip()`. |
| PyText.StripUnchanged | src/memory_reader.py:92 | `strip()` leaves a nonempty string unchanged when neither end is whitespace. |
| ConfigParsing.HexHasNoComma | src/memory_reader.py:91 | `hex(n)` contains no comma, so it survives `split(',')` whole. |
| PyText.TrimStart | src/memory_reader.py:92 | The result is a suffix of the input that does not start with whitespace. |
| PyText.TrimEnd | src/memory_reader.py:92 | The result is a prefix of the input that does not end with whitespace. |
| PyText.Split | src/memory_reader.py:91 | `split(',')` gives at least one piece, and no piece contains the separator. |
| PyText.SplitJoin | src/memory_reader.py:91 | Splitting undoes joining when no piece contains the separator. |
| PyText.SplitAfterPiece | src/memory_reader.py:91 | A separator-free piece followed by the separator splits off as exactly one piece. |
| PyText.SplitWithoutSeparator | src/memory_reader.py:91 | A string without the separator splits into itself alone. |
| PyInt.DigitsRoundTrip | src/memory_reader.py:36 | The digits `hex()`/`str()` print are well formed for `int()` and read back as the number. |
| PyInt.HexRoundTrip | src/memory_reader.py:73 | `int(hex(n), 16) == n` for every integer. |
| PyInt.HexSignedRoundTrip | src/memory_reader.py:73 | The sign of `hex(n)` is read back along with its magnitude. |
| PyInt.HexMagnitudeRoundTrip | src/memory_reader.py:73 | `0x` followed by the hex digits of m reads back as m. |
| PyInt.HexSign | src/memory_reader.py:36 | `hex(n)` starts with `-` exactly for negatives, followed by `0x` and the digits of the magnitude. |
| PyInt.SignedFromParts | src/memory_reader.py:73-74 | `int()` reads a signed literal as its unsigned part with the sign applied. |
| PyInt.DecimalRoundTrip | src/memory_reader.py:74 | `int(str(n)) == n` for every integer. |
| PyInt.DecimalSignedRoundTrip | src/memory_reader.py:74 | The sign of `str(n)` is read back along with its digits. |
| PyInt.DecimalSign | src/memory_reader.py:74 | `str(n)` starts with `-` exactly for negatives, followed by the digits of the magnitude. |
| PyInt.ParseIntOfTrimmed | src/memory_reader.py:73-74 | `int()` reads a literal with no whitespace at either end as it stands. |
| PyInt.DigitChar | src/memory_reader.py:36 | The printed digit is a digit of the base and has the value it renders. |
| PyInt.Digits | src/memory_reader.py:36 | The rendering is nonempty and made only of digits of the base. |
| PyInt.Quotient | src/memory_reader.py:36 | The quotient q of n by the base satisfies q·base <= n < q·base + base, and q < n once n reaches the base. |
| TypedReads.ToInt32 | src/standalone/potion_count.py:68 | `read_int` decodes a 32-bit word as two's complement: the result is in the signed 32-bit range and congruent to the word. |
| TypedReads.ReadMemoryInt | src/memory_reader.py:123-130 | Address 0 or an unreadable address gives 0. A readable nonzero address gives its word as a signed 32-bit integer, and a nonzero result comes only from such an address. |
| TypedReads.ReadMemoryFloat | src/memory_reader.py:102-109 | Address 0 or an unreadable address gives 0.0. A readable nonzero address gives the float stored there, and a nonzero result comes only from such an address. |
| TypedReads.ReadMemoryDouble | src/memory_reader.py:112-120 | Address 0 or an unreadable address gives +0.0. A readable nonzero address gives the 8 bytes stored there, and a result other than +0.0 comes only from such an address. |
| FloatBits.ComparisonsPartition | src/memory_reader.py:285 | The zero comparisons on bit patterns behave as IEEE-754 says: `> 0` implies `>= 0`; a NaN is not `>= 0`; `>= 0` and not `> 0` holds exactly for the two zeros. |
| MemoryReaderWorker.AttachStep | src/memory_reader.py:207-240 | With a handle already open: the call succeeds, keeps the handle, and looks up only a missing module base. When opening raises (process not found or anything else): no handle, no base, failure. A fresh handle is kept even when its module lookup fails, and success means the lookup found a base. The "printed" flag is set exactly by a fresh attach that found a base. |
| MemoryReaderWorker.ChainReading | src/memory_reader.py:325-333 | When the walk from `module_base + base_offset` raises, the reading is 0.0. |
| MemoryReaderWorker.ChainReadingComesFromWalk | src/memory_reader.py:325-333 | A nonzero reading is the double at the end of a complete walk. That walk made one read per offset, the first at `module_base + base_offset`, and ended at a readable nonzero address. |
| MemoryReaderWorker.ChainReadingOfCompletePath | src/memory_reader.py:328-333 | A complete read path from the module base plus the base offset that ends at a nonzero readable address gives the double stored there. |
| MemoryReaderWorker.MaxHealthZeroCases | src/memory_reader.py:302-322 | `_read_max_health` returns 0.0 in each of these cases: no handle or no module base; a getter raises; the base offset parses to 0; the offsets parse to []. |
| MemoryReaderWorker.MaxHealthComesFromChain | src/memory_reader.py:302-333 | A nonzero reading implies a handle, a base, both settings, a nonzero base offset and nonempty offsets. It is then the chain reading from `module_base + base_offset`. |
| MemoryReaderWorker.MaxHealthWalksChain | src/memory_reader.py:315-333 | Conversely, when those conditions hold, the reading is exactly the chain reading. |
| MemoryReaderWorker.ChainReadingAfterWalk | src/memory_reader.py:328-331 | Once the walk has given its result, the reading is 0.0 for a raised walk, and otherwise `read_memory_double` at the final address. |
| MemoryReaderWorker.ShippedSettingsNeverReadMaxHealth | src/memory_reader.py:311-312 | With the shipped configuration class, whose max-health getters do not exist, the reading is 0.0 and never positive, whatever the process memory holds (see Findings). |
| MemoryReaderWorker.ChainReadingMatchesProbe | src/memory_reader.py:325-333 | On the standalone max-health chain, a nonzero worker reading equals the script's value, and where the script fails the worker reads 0.0. |
| MemoryReaderWorker.IntendedSettingsFollowProbe | src/memory_reader.py:311-333 | With getters returning the standalone chain as `hex()` text, the worker walks exactly that chain from the module base. |
| MemoryReaderWorker.MemoryReader.constructor | src/memory_reader.py:145-167 | A new reader is stopped, enabled, not told the process runs, and has no handle, no base, and no flags set. |
| MemoryReaderWorker.MemoryReader.SetEnabled | src/memory_reader.py:169-171 | Stores the flag; nothing else changes. |
| MemoryReaderWorker.MemoryReader.CloseProcess | src/memory_reader.py:198-205 | Always leaves no handle. It returns the handle it closed, if any, so a second call closes nothing. The module base and the flags are kept. |
| MemoryReaderWorker.MemoryReader.SetProcessRunning | src/memory_reader.py:173-180 | Stores the flag. `False` also closes the handle and resets the module base, the initialised flag and the printed flag. `True` changes nothing else. |
| MemoryReaderWorker.MemoryReader.Start | src/memory_reader.py:182-189 | Leaves the reader running. A second thread is started only if it was not already running. |
| MemoryReaderWorker.MemoryReader.Stop | src/memory_reader.py:191-196 | Clears the running flag and closes the handle. |
| MemoryReaderWorker.MemoryReader.AttachToProcess | src/memory_reader.py:207-240 | Changes the handle, base and printed flag, and returns success, exactly as `AttachStep` says. It keeps the invariant that a cached module base belongs to the current handle. |
| MemoryReaderWorker.MemoryReader.InitializeMaxHealthPointer | src/memory_reader.py:242-293 | Sets the initialised flag exactly when it was set already or the chain reading is positive. It changes nothing else. |
| MemoryReaderWorker.MemoryReader.ReadMaxHealth | src/memory_reader.py:295-337 | Returns the max-health reading of the memory the reading walk sees. Sets the initialised flag exactly when it was set already or the initialisation walk, over the memory it saw earlier, read a positive value. |
| MemoryReaderWorker.MemoryReader.ReadingStep | src/memory_reader.py:366-385 | Not running: the loop has ended. Process not running or reading disabled: pause, with nothing changed. Otherwise attach as `AttachStep` says; a failed attach skips the reading. A successful attach always goes on to read max health, and emits the reading exactly when it is positive. The initialised flag follows the initialisation walk's own memory. |
| Overlay.StatusOf | src/overlay.py:118-128 | WAITING exactly when the process is not running, whatever the enabled flag says. ON exactly when running and enabled. OFF exactly when running and disabled. |
| Overlay.PushNewest | src/overlay.py:224-227 | The new entry is first. Earlier entries each move down one place. The log length is one more than before, capped at 3, so only the oldest entry falls off. |
| Overlay.ReplayKeepsNewest | src/overlay.py:210-228 | After any series of additions to an empty log, the log is exactly the three most recent entries, newest first. |
| Overlay.ClampCurrent | src/overlay.py:197 | A value `>= 0` is kept. Anything else, NaN included, becomes 0.0. The stored value is always `>= 0`. |
| Overlay.ClampMax | src/overlay.py:207 | A value `> 0` is kept; anything else becomes 0.0. The stored value is positive exactly when the input is. |
| Overlay.ShownExactlyWithPositiveMax | src/overlay.py:175 | After the clamps, the health label shows numbers exactly when the maximum given was positive. |
| Overlay.OverlaySettings.SetOverlayLocked | src/overlay.py:163 | The saved lock flag becomes the given value; the saved position is unchanged. |
| Overlay.OverlaySettings.SetOverlayPos | src/overlay.py:244 | The saved position becomes the given one; the saved lock flag is unchanged. |
| Overlay.OverlaySettings.constructor | src/config.py:94-115 | The settings start with the saved lock flag and position as given. |
| Overlay.OverlayWindow.constructor | src/overlay.py:17-37 | Starts enabled, not running (WAITING), with an empty log and zero health, at the saved lock state and position. |
| Overlay.OverlayWindow.SetEnabledState | src/overlay.py:150-153 | Stores the flag; the status follows the status rule; nothing else changes. |
| Overlay.OverlayWindow.SetProcessRunning | src/overlay.py:155-158 | Stores the flag; the status follows the status rule; nothing else changes. |
| Overlay.OverlayWindow.SetLockedState | src/overlay.py:160-163 | Stores the flag and saves the same value to the settings, so the two always agree. |
| Overlay.OverlayWindow.ToggleEnabled | src/overlay.py:165-167 | Negates the enabled flag, so two toggles restore it. |
| Overlay.OverlayWindow.ToggleLocked | src/overlay.py:169-171 | Negates the locked flag and saves the new value. |
| Overlay.OverlayWindow.SetCurrentHealth | src/overlay.py:190-198 | Stores the clamped value. The health label then shows numbers exactly when the maximum is positive. |
| Overlay.OverlayWindow.SetMaxHealth | src/overlay.py:200-208 | Stores the clamped value. The health label then shows numbers exactly when the input was positive. |
| Overlay.OverlayWindow.AddPotionLogEntry | src/overlay.py:210-228 | The log becomes `PushNewest` of the old log and the new entry; the log stays within 3 entries. |
| Overlay.OverlayWindow.MousePress | src/overlay.py:231-235 | A drag starts exactly on a left press while unlocked; the grab offset is recorded. Otherwise nothing changes. |
| Overlay.OverlayWindow.MouseMove | src/overlay.py:237-245 | The overlay moves exactly when only the left button is held, it is unlocked, and a drag is under way. It moves so the grab point follows the pointer, and the new position is saved. A locked overlay never moves. |
| Overlay.OverlayWindow.MouseRelease | src/overlay.py:247-250 | The drag ends, locked or not. |
| ProcessDetection.CheckProcessRunning | src/main.py:74-82 | The search loop returns True exactly when some enumerated process has exactly the given name. It returns False otherwise, including when the enumeration raised after the names it gave. |
| ProcessDetection.FirstObservationEmits | src/main.py:38-66 | With no status recorded yet, the first observation is always emitted. |
| ProcessDetection.EmissionsAlternate | src/main.py:63-66 | Emitted values never repeat back to back, and the first one differs from the status recorded before. |
| ProcessDetection.RepeatsAreSilent | src/main.py:63-66 | Observing the recorded status again, any number of times, emits nothing. |
| ProcessDetection.ListenerStaysInSync | src/main.py:63-66 | A listener that starts from the recorded status and hears only the emitted values ends up believing the latest observation. |
| ProcessDetection.EmissionsExtend | src/main.py:63-66 | One more observation adds one emission exactly when it differs from the recorded status. |
| ProcessDetection.ProcessDetector.constructor | src/main.py:29-40 | A new detector is stopped, has started no thread, and has no recorded status. |
| ProcessDetection.ProcessDetector.Start | src/main.py:42-49 | Leaves the detector running. A second start makes no new thread. |
| ProcessDetection.ProcessDetector.Stop | src/main.py:51-55 | Clears the running flag, so the next round halts. |
| ProcessDetection.ProcessDetector.DetectionRound | src/main.py:57-66 | A stopped detector does nothing. Otherwise the observation is the name search. It is emitted exactly when it differs from the recorded status, and it becomes the recorded status. |
| ProcessDetection.ProcessDetector.DetectionLoop | src/main.py:57-72 | Over successive process tables, the loop emits exactly `Emissions` of the observations and ends with the latest observation recorded. |

## Left out

- Opening the process, looking up the module base, closing the handle and enumerating processes are calls into pymem, the OS and psutil. Each is an argument standing for its result: `OpenOutcome`, the `lookup` option, `Memory`, `ProcessTable`.
- Threads, joins with time-outs, daemon flags and `time.sleep`. The loops of `_reading_loop` and `_detection_loop` are modelled one pass at a time (`ReadingStep`, `DetectionRound`), and the detector's loop also over a finite run of rounds (`DetectionLoop`). Concurrent updates from the hotkey and Qt threads are not modelled.
- Decoding of floats and doubles (`struct.unpack`, `read_float`) is left opaque: values are bit patterns, and only their comparisons with zero are modelled.
- Threshold arithmetic and all label text formatting in the overlay (`_update_threshold_display`, the status label's text, the health text, the potion-log label text), except the choice between numbers and `--`.
- Overlay.OverlayWindow.AddPotionLogEntry: takes the health amount already as an integer. The `int(health_amount)` truncation of a float, and the clock reading (`datetime.now()`), are arguments.
- The disabled potion logic and the placeholder readers of the worker (`_read_actual_health`, `_read_potion_count`, `_use_potion`, src/memory_reader.py:339-364, 386-405). They do not affect behaviour. The `_last_potion_time` and `_potion_cooldown` fields are never used and are not modelled.
- The `except` branch of `_reading_loop` (src/memory_reader.py:410-414): every call in the loop body catches its own exceptions, so the branch cannot be reached in the model.
- MemoryReaderWorker.MemoryReader.InitializeMaxHealthPointer: does not model its diagnostic prints, only the flag it sets.
- All `print` diagnostics and the `sys.exit` paths of the scripts' `main` functions. The scripts' attach and module-lookup steps are left out. `Probe` starts from the module base.
- Qt widgets, signals, styles, window flags and geometry. The overlay's position is two integers; the frameless window's frame corner is taken to be its position. Signal emission is a returned value.
- The `keyboard` hotkeys, `get_resource_path` and the application bootstrap in src/main.py, except the `ProcessDetector`. src/config.py is not part of this model: its getters are external sources of strings (`ChainSettings`), and its overlay setters are the `OverlaySettings` class without the disk write.
- `int()` on non-ASCII digits, and CPython's 4300-digit limit for decimal strings, are not modelled. A non-string argument to `parse_address`/`parse_offsets` (which gives 0 or `[]`) appears only as a getter that raises (`None`).
- Each walk of the target's memory sees one fixed snapshot (`Memory`). `ReadMaxHealth` gives its initialisation walk and its reading walk separate snapshots, but the memory does not change within one walk.
- The 8-byte and 4-byte views of memory are two independent maps; their agreement on overlapping bytes is not modelled.
- `is_locked` and `is_enabled` are plain field reads (`lockedState`, `enabledState`).

Behaviour of the code worth knowing:

- The chain walk does not reject a null or small pointer: a read value of 0 has the next offset added.
- `_attach_to_process` keeps a freshly opened handle when the module lookup fails. The next attach then only retries the lookup.
- src/main.py never creates a `MemoryReader`, so in the application as shipped the worker is never started.

## Findings

| source | as written | input that shows it | evidently intended | confidence | as-written member | corrected member |
|---|---|---|---|---|---|---|
| src/memory_reader.py:311-312 | `_read_max_health` and `_initialize_max_health_pointer` call `config.get_max_health_base_offset()` and `config.get_max_health_offsets()`. src/config.py defines neither, so each call raises `AttributeError`, which the surrounding `except Exception` turns into 0.0. | Any attached process and any memory: the reading is 0.0, and `max_health_updated` is never emitted. | Getters that return the max-health chain of src/standalone/max_health.py as `hex()` text, so the worker walks that chain from the module base. | not executed | MemoryReaderWorker.ShippedSettingsNeverReadMaxHealth | MemoryReaderWorker.IntendedSettingsFollowProbe |
