# spicebind core in Dafny

spicebind runs a Verilog logic simulator and the ngspice analog solver
side by side. It connects them through VPI, the Verilog Procedural Interface.
The two engines advance in virtual time. They meet at a two-party time
barrier: the logic side publishes its time and waits until ngspice has
caught up, and the other way round.

Ports of the configured HDL instances are registered in a port table. The
table has two maps:

- analog inputs are driven by the logic side and read by ngspice voltage
  sources;
- analog outputs are sampled from ngspice vectors and written back to the
  logic side.

Values move through a debounce rule: a sample counts only when it differs
from the stored value by more than a minimum threshold. Logic levels and
voltages are converted with a supply voltage and two logic thresholds.

When an input port toggles, the logic side arms one zero-delay resync.
That resync pushes the SPICE slot of the barrier back to the current time
and requests a redo. ngspice's step callback then shortens the current step
so that the redone step ends exactly on that time.

The model has one module per source file, plus four shared modules.

Shared modules:

- `Options`: an option type.
- `Ticks`: unsigned 64-bit time arithmetic with the wrap written out.
- `Vpi`: VPI codes, handles, and the trace of host calls.
- `Naming`: lowercasing, `std::to_string` and the `name[i]` bit keys.

Per-source modules:

- `Converter` (`AnalogDigitalInterface.cpp`): the two converters.
- `Ports` (`AnalogDigitalInterface.cpp`): the port table's state changes, as functions.
- `Bridge` (`AnalogDigitalInterface.cpp`): the `AnalogDigitalInterface` class.
  Its maps are map fields, and each method is proved against a function of `Ports`.
- `TimeBarrier` (`TimeBarrier.h`): the barrier class.
- `NgSpice` (`NgSpiceCallbacks.cpp`): `ng_sync` and `ng_srcdata`.
- `VpiCallbacks` (`VpiCallbacks.cpp`): the four VPI callbacks over a
  `Simulator` class. That class holds the source's statics and globals.
- `Config` (`Config.cpp`): validation, the instance-list parser and the defaults.
- `SingleConfig` (`SpiceVpiConfig.cpp`): the single-instance validator.

Calls into VPI and ngspice are modelled from both sides. What they answer
becomes a parameter:

- a `PortQuery` per port;
- a `SignalReading` per handle;
- the ngspice vectors as a map;
- handles;
- status codes.

What the bridge calls is returned as a sequence of `HostCall`s or
`PutValue`s. Virtual time is in integer ticks.

Notes on what the code does:

- `vpi_port_change_cb` only arms the resync. It does not read the changed
  input into the table. The inputs are polled later, in `vpi_timestep_cb`,
  and only when the resync was armed.
- The redo length in `ng_sync` is computed in double-precision seconds and
  clamped to one tick. The model computes it in ticks.
- `vpi_start_of_sim_cb` passes the netlist path itself to `ngSpice_Command`.
- The `pop_back` of a trailing empty name in `parse_instance_names` never
  fires. No collected name can be empty, because the parser only keeps
  non-empty pieces (`Config.NoTrailingEmptyName`).

## Model

| member | source | states |
|---|---|---|
| Ticks.SubU64 | cpp/VpiCallbacks.cpp:127 | unsigned 64-bit difference: the unique value that, added to the subtrahend with wrap, gives the minuend |
| Naming.LowerSpec | cpp/AnalogDigitalInterface.cpp:109 | `std::transform(..., ::tolower)` maps each character in place, and only `A`..`Z` change |
| Naming.LowerIsNormal | cpp/AnalogDigitalInterface.cpp:267 | a lowercased name contains no upper-case letter, and lowercasing it again changes nothing |
| Naming.PortKey | cpp/AnalogDigitalInterface.cpp:104-109 | the port key is lowercase; it is `module.port` lowercased when full-path discovery is on, else the port name lowercased |
| Naming.LowerOfConcat | cpp/AnalogDigitalInterface.cpp:104-109 | lowercasing `module + "." + name` is the concatenation of the lowercased parts |
| Naming.NatToStringDigits | cpp/AnalogDigitalInterface.cpp:82 | the decimal form of a natural number holds only digits |
| Naming.ParseNatToString | cpp/AnalogDigitalInterface.cpp:82 | reading the decimal form back gives the number (`std::to_string` round trip) |
| Naming.IntToStringInjective | cpp/AnalogDigitalInterface.cpp:82 | distinct integers have distinct `std::to_string` forms, negatives included |
| Naming.NegativeString | cpp/AnalogDigitalInterface.cpp:82 | a negative number prints as `-` followed by the decimal form of its magnitude |
| Naming.IndexedNameShape | cpp/AnalogDigitalInterface.cpp:81-83 | `base[i]` is the base, then `[`, then the decimal form of i, then `]` |
| Naming.IndexedNameInjective | cpp/AnalogDigitalInterface.cpp:81-83 | two bit keys of the same base are equal only for the same index |
| Naming.IndexedNameIsLower | cpp/AnalogDigitalInterface.cpp:125-131 | the bit keys of a lowercase base are lowercase, so the lowercased lookups of `digital_input_update` can find them |
| Converter.DigitalToAnalog | cpp/AnalogDigitalInterface.cpp:60-69 | 0 maps to 0 V, 1 to VCC, and every other level (Z, X, ...) to VCC/2 |
| Converter.AnalogToDigital | cpp/AnalogDigitalInterface.cpp:71-79 | only 0, 1 or X result: 0 exactly below the low threshold, 1 exactly when not below low and above high, X exactly when low <= v <= high |
| Converter.AnalogToDigitalMonotone | cpp/AnalogDigitalInterface.cpp:71-79 | a higher voltage never gives a lower logic level (0 < X < 1), for any thresholds |
| Converter.DigitalToAnalogRoundTrip | cpp/AnalogDigitalInterface.cpp:60-79 | converting 0, 1 and X to a voltage and back gives the same level exactly when 0 < low, when low <= VCC and high < VCC, and when low <= VCC/2 <= high |
| Converter.DefaultThresholdsRoundTrip | cpp/Config.cpp:18-20 | with the default thresholds 0.3·VCC and 0.7·VCC and any VCC > 0, the levels 0, 1 and X survive the round trip |
| Converter.ConversionScenario | cpp/AnalogDigitalInterface.cpp:71-79 | with thresholds 0.3/0.7: 0.25 V reads 0, 0.75 V reads 1, 0.5 V reads X |
| Config.DefaultSettings | cpp/Config.h:16-25 | the default `Settings` have a positive minimum change threshold and are rejected for their empty netlist path |
| Config.Validate | cpp/Config.cpp:26-52 | accepts exactly the well-formed settings: netlist path, instance list and every name non-empty, VCC > 0, 0 <= low < high <= VCC |
| Config.ValidateRejections | cpp/Config.cpp:27-52 | rejects an empty path first, then an empty list, and also any empty name, VCC <= 0, low >= high, low < 0 or high > VCC |
| Config.DefaultThresholdsInRange | cpp/Config.cpp:18-20 | for every VCC > 0 the default thresholds satisfy 0 <= 0.3·VCC < 0.7·VCC <= VCC |
| Config.FirstNotSpaceSpec | cpp/Config.cpp:103 | `find_first_not_of(" \t\r\n")`: none exactly for an all-blank piece, else a non-blank position with only blanks before it |
| Config.LastNotSpaceSpec | cpp/Config.cpp:104 | `find_last_not_of(" \t\r\n")`: none exactly for an all-blank piece, else a non-blank position with only blanks after it |
| Config.FirstBeforeLast | cpp/Config.cpp:103-107 | when both searches find something, start <= end, so `substr(start, end - start + 1)` is well defined |
| Config.PieceNames | cpp/Config.cpp:106-111 | one comma-free piece contributes at most one name |
| Config.PieceNamesShape | cpp/Config.cpp:103-111 | a contributed name is non-empty, comma-free, and either entirely blank (kept verbatim) or trimmed at both ends |
| Config.FindComma | cpp/Config.cpp:101 | the `getline` split point: the first comma, or the end when there is none |
| Config.ParseInstanceNames | cpp/Config.cpp:85-117 | returns exactly `InstanceNames(value)`; full-path discovery is on exactly when the value contains a comma |
| Config.ReadTokens | cpp/Config.cpp:98-112 | the getline loop collects exactly `CollectNames(value)`, token by token |
| Config.EmptyValueParses | cpp/Config.cpp:88-93 | the empty value yields no names and full-path discovery off |
| Config.CollectedNamesShape | cpp/Config.cpp:101-112 | every collected name is non-empty, comma-free, and blank or trimmed (`GoodName`) |
| Config.NoTrailingEmptyName | cpp/Config.cpp:114-117 | the trailing-comma `pop_back` never removes anything, and no returned name is empty |
| Config.CollectNamesSplit | cpp/Config.cpp:101-112 | pieces are handled in input order: the names of the text before the first comma come first |
| Config.FindCommaAt | cpp/Config.cpp:101 | in `a,b` with a comma-free `a`, the split point is right after `a` |
| Config.SingleToken | cpp/Config.cpp:101-112 | a comma-free value gives the names of its single piece, or none when it is empty |
| Config.TrimmedPiece | cpp/Config.cpp:103-107 | a piece that starts and ends with non-blank characters is kept unchanged |
| Config.TwoInstances | cpp/Config.cpp:85-117 | two comma-free names with no blank at their ends, joined by a comma (as `tb.inv0,tb.inv1`), give exactly those two names in order, with full-path discovery on |
| Config.LoadFromEnvironment | cpp/Config.cpp:9-24 | a missing `SPICE_NETLIST`, then a missing `HDL_INSTANCE`, is reported by name; with both set, loading succeeds exactly when the path is non-empty, the list names something once split, VCC (default 1.0) is positive and the thresholds (default 30% and 70% of VCC) satisfy 0 <= low < high <= VCC, and is otherwise a validation error; loaded settings are well formed and carry the path, the parsed names, the comma flag, VCC, the thresholds and the remaining defaults |
| Config.DefaultsLoad | cpp/Config.cpp:18-22 | with a netlist, an instance list that yields at least one name, VCC unset or positive and no thresholds, loading succeeds with thresholds 0.3·VCC and 0.7·VCC, and full-path discovery set exactly by a comma |
| SingleConfig.Validate | cpp/SpiceVpiConfig.cpp:21-41 | accepts exactly when path and name are non-empty, VCC > 0 and 0 <= low < high <= VCC; never reports an empty list |
| SingleConfig.ValidateRejections | cpp/SpiceVpiConfig.cpp:22-40 | rejects an empty path first, then an empty name, and also VCC <= 0, low >= high, low < 0 or high > VCC |
| SingleConfig.AgreesWithMultiInstance | cpp/SpiceVpiConfig.cpp:21-41 | the single-instance validator gives the same verdict as the multi-instance one on the one-name list |
| SingleConfig.LoadFromEnvironment | cpp/SpiceVpiConfig.cpp:8-19 | missing variables are reported by name in source order; with both set, loading succeeds exactly when path and name are non-empty, VCC (default 1.0) is positive and the thresholds (default 30% and 70% of VCC) satisfy 0 <= low < high <= VCC, and is otherwise a validation error; loaded settings are well formed and carry the path, the whole `HDL_INSTANCE` value as the name, VCC and the thresholds |
| SingleConfig.DefaultThresholdsLoad | cpp/SpiceVpiConfig.cpp:13-17 | with path, name, VCC unset or positive and no thresholds, loading succeeds with thresholds 0.3·VCC and 0.7·VCC |
| TimeBarrier.Barrier.constructor | cpp/TimeBarrier.h:27 | both slots 0, not shut down, no redo, hint 0 |
| TimeBarrier.Barrier.WaitState | cpp/TimeBarrier.h:94-99 | the wait reports shut down exactly after shutdown, and is released exactly when the other engine's slot is at least this engine's |
| TimeBarrier.Barrier.Update | cpp/TimeBarrier.h:81-100 | a bad id is refused with no change; after shutdown nothing is written and false is returned; otherwise only this engine's slot is set and the wait is released exactly if the other slot is at least the new time |
| TimeBarrier.Barrier.UpdateNoWait | cpp/TimeBarrier.h:103-108 | writes only this engine's slot, even after shutdown; a bad id is refused |
| TimeBarrier.Barrier.GetTime | cpp/TimeBarrier.h:111-116 | returns the engine's slot exactly for a valid id |
| TimeBarrier.Barrier.Shutdown | cpp/TimeBarrier.h:119-125 | sets the shutdown flag and leaves the redo flag and hint alone |
| TimeBarrier.Barrier.IsShutdown | cpp/TimeBarrier.h:128-130 | reports the shutdown flag |
| TimeBarrier.Barrier.SetNeedsRedo | cpp/TimeBarrier.h:133-135 | sets the redo flag and nothing else |
| TimeBarrier.Barrier.NeedsRedo | cpp/TimeBarrier.h:138-140 | reports the redo flag |
| TimeBarrier.Barrier.SetNextSpiceStepTime | cpp/TimeBarrier.h:143-145 | sets the step-end hint and nothing else |
| TimeBarrier.Barrier.GetNextSpiceStepTime | cpp/TimeBarrier.h:148-150 | reports the step-end hint |
| TimeBarrier.ShutdownReleasesBothEngines | cpp/TimeBarrier.h:81-125 | once shut down, both engines' updates return false at once, whatever times they publish |
| TimeBarrier.RendezvousScenario | cpp/TimeBarrier.h:81-157 | HDL at 10 waits for SPICE; SPICE at 12 waits for HDL; HDL is then released; engine id 2 is refused |
| Ports.File | cpp/AnalogDigitalInterface.cpp:142-148 | `emplace` never overwrites; it adds one key, in the bucket of the entry's direction, and nothing for other directions |
| Ports.AddPortFacts | cpp/AnalogDigitalInterface.cpp:85-176 | registration keeps every existing entry; an entry lands only in its direction's bucket; each new entry has value 0.0 and changed set, with scalar metadata (bit -1, size 1, the net's handle) or bit metadata (`key[i]`, base key, size, the bit's handle) |
| Ports.AddPortRejects | cpp/AnalogDigitalInterface.cpp:89-118 | a port with no parent or net, an unsupported net type, or a direction other than input/output leaves both maps unchanged |
| Ports.AddPortKeepsOk | cpp/AnalogDigitalInterface.cpp:123-175 | every entry stays keyed by its own name, in the bucket of its direction, with consistent scalar or bit metadata |
| Ports.BitKeysExclude | cpp/AnalogDigitalInterface.cpp:125-131 | the key of bit j is none of the keys of bits below j |
| Ports.BitKeysCount | cpp/AnalogDigitalInterface.cpp:125-131 | the N bit keys of one base are N distinct names |
| Ports.VectorInputRegistersEveryBit | cpp/AnalogDigitalInterface.cpp:123-150 | an N-bit input whose bits all resolve adds exactly the keys `key[0]`..`key[N-1]`, and N entries when none of them existed |
| Ports.Debounce | cpp/AnalogDigitalInterface.cpp:204-208 | metadata is never touched; a sample further than the threshold is stored and sets the flag; a closer one changes nothing; the flag is never cleared; the stored value ends equal to or within the threshold of the sample |
| Ports.DebounceAt | cpp/AnalogDigitalInterface.cpp:274-291 | the lookup-then-debounce step: a missing key changes nothing, other keys are untouched, the addressed entry is debounced |
| Ports.ShapeKeepsOk | cpp/AnalogDigitalInterface.cpp:189-238 | changing only values and flags keeps the table well formed |
| Ports.RefreshOutputs | cpp/AnalogDigitalInterface.cpp:189-211 | each output is debounced against the last sample of `v(name)`; a missing or empty vector leaves it alone; keys and metadata are kept and no flag is cleared |
| Ports.Drained | cpp/AnalogDigitalInterface.cpp:213-238 | after draining, no flag is set, and values, keys and metadata are as before |
| Ports.DrainIsOneShot | cpp/AnalogDigitalInterface.cpp:217 | a second drain finds nothing changed and changes nothing |
| Ports.UpdateBits | cpp/AnalogDigitalInterface.cpp:314-350 | the bit loop keeps keys and metadata and never clears a flag |
| Ports.UpdateBitsUntouched | cpp/AnalogDigitalInterface.cpp:314-350 | the bit loop changes only the entries its bits address |
| Ports.DigitalInputFacts | cpp/AnalogDigitalInterface.cpp:256-351 | a logic-side update keeps keys and metadata, never clears a flag, and touches only the signal's own key (real or net bit) or the keys its bits address; a vector of size <= 0 changes nothing |
| Ports.UpdateAll | cpp/AnalogDigitalInterface.cpp:241-253 | polling all inputs keeps keys and metadata and never clears a flag |
| Ports.IterationOrderCovers | cpp/AnalogDigitalInterface.cpp:245 | an iteration order (distinct keys of the map, as many as it has) visits every key and nothing else |
| Bridge.Interface.constructor | cpp/AnalogDigitalInterface.cpp:57-58 | the registry starts with the given settings and two empty maps |
| Bridge.Interface.Emplace | cpp/AnalogDigitalInterface.cpp:142-148 | the maps become `File` of the old maps |
| Bridge.Interface.AddPort | cpp/AnalogDigitalInterface.cpp:85-176 | registering a port step by step yields `Ports.AddPort` of the old tables, and keeps them well formed |
| Bridge.Interface.SetAnalogInput | cpp/AnalogDigitalInterface.cpp:178-186 | returns the stored value of a known input, and leaves `*value` untouched for an unknown one |
| Bridge.Interface.AnalogOutputsUpdate | cpp/AnalogDigitalInterface.cpp:189-211 | the outputs become `RefreshOutputs` of the old outputs; the inputs do not change |
| Bridge.Interface.SetDigitalOutput | cpp/AnalogDigitalInterface.cpp:213-238 | each changed output is written exactly once, and nothing else is written: a real for a real variable, otherwise `analog_to_digital` of its value; all flags end cleared |
| Bridge.Interface.DebounceInput | cpp/AnalogDigitalInterface.cpp:274-287 | the inputs become `DebounceAt` of the old inputs |
| Bridge.Interface.DigitalInputUpdate | cpp/AnalogDigitalInterface.cpp:256-351 | the inputs become `DigitalInput` of the old inputs for this reading; the outputs do not change |
| Bridge.Interface.UpdateInputBits | cpp/AnalogDigitalInterface.cpp:314-350 | the bit loop yields `UpdateBits` over the signal's size, or nothing for size <= 0; the outputs do not change |
| Bridge.Interface.DebounceBit | cpp/AnalogDigitalInterface.cpp:316-349 | one pass of the bit loop is one `BitStep`: a missing bit changes nothing, else the bit's key (`name[i]` for a vector) is debounced with the converted level |
| Bridge.Interface.UpdateAllDigitalInputs | cpp/AnalogDigitalInterface.cpp:241-253 | visiting the inputs in an iteration order of the map yields `UpdateAll`; the outputs do not change |
| Bridge.Interface.PollInput | cpp/AnalogDigitalInterface.cpp:245-251 | one visit is one `PollStep`: the signal behind the entry's handle goes through `digital_input_update` |
| Bridge.Interface.GetAnalogInputNames | cpp/AnalogDigitalInterface.cpp:353-361 | every input key exactly once, and nothing else |
| NgSpice.Sync | cpp/NgSpiceCallbacks.cpp:19-79 | branches in source order: a solver redo passes; a committed time beyond the (wrapping) step end passes; a pending redo at begin-step is skipped for a step ending before the committed time and otherwise shortens the step; end-step records the wrapped step end as hint; a redo length is at least one tick |
| NgSpice.RedoLandsOnCommittedTime | cpp/NgSpiceCallbacks.cpp:49-57 | the redone step ends exactly on the committed time unless that would be shorter than one tick, when it is one tick; it is never longer than the old step |
| NgSpice.NoRedoWithoutRequest | cpp/NgSpiceCallbacks.cpp:41-64 | `ng_sync` returns 1 only when a redo is pending |
| NgSpice.RedoScenario | cpp/NgSpiceCallbacks.cpp:29-64 | committed at 100: a step at 150 after 80 ticks is redone with 30; after 40 ticks the redo is clamped to 1; a step at 90 skips; a step ending at 70 passes untouched |
| NgSpice.NgSync | cpp/NgSpiceCallbacks.cpp:19-79 | returns `ReturnCode(Sync(...))` on the barrier's state; writes the new delta only on a redo; clears the redo flag exactly on a redo; sets the hint and refreshes the outputs exactly at an end step; nothing else changes |
| NgSpice.SourcePort | cpp/NgSpiceCallbacks.cpp:96-97 | the port name is the source name without its first character; an empty source name has none |
| NgSpice.SourceOfPort | cpp/NgSpiceCallbacks.cpp:96-98 | the source `v<port>` leads back to `<port>` |
| NgSpice.NgSrcDataPublish | cpp/NgSpiceCallbacks.cpp:83-91 | with a redo pending nothing is published and there is no wait; otherwise, unless shut down, only the SPICE slot becomes the sample time, and the wait is released exactly when the HDL slot is at least that time |
| NgSpice.NgSrcDataAnswer | cpp/NgSpiceCallbacks.cpp:93-102 | read after the wait: the answer is the value the named input holds at that point, the untouched `*vp` for an unknown name, or the `substr` fault for an empty name |
| VpiCallbacks.BurstArmsOnce | cpp/VpiCallbacks.cpp:60-88 | any burst of port changes registers exactly one zero-delay time step (none if already armed), cancels a pending wake-up exactly once, makes no other call, and leaves the statics armed with no pending handle |
| VpiCallbacks.TimestepDelay | cpp/VpiCallbacks.cpp:126-132 | `time_low` is never 0: hint minus now when the hint is later, the 64-bit wrap of it when earlier (not clamped), 1 when equal; whenever the hint differs from now, now plus `time_low` is the hint modulo 2^64 |
| VpiCallbacks.WrittenDelay | cpp/VpiCallbacks.cpp:136-138 | as written: the high word is 0 and the low word keeps `time_low` modulo 2^32, so the registered delay equals `time_low` below 2^32 and is smaller from there on |
| VpiCallbacks.WrittenDelayMissesHint | cpp/VpiCallbacks.cpp:126-142 | as written, now 0 and hint 2^32 give `time_low` 2^32 but a registered delay of 0 |
| VpiCallbacks.WrittenDelayZero | cpp/VpiCallbacks.cpp:126-142 | as written, the registered delay is 0 exactly when `time_low` is a multiple of 2^32 |
| VpiCallbacks.DelayTime | cpp/VpiCallbacks.cpp:136-138 | corrected: both 32-bit words are filled and together stand for exactly the 64-bit delay |
| VpiCallbacks.WakeUpLandsOnHint | cpp/VpiCallbacks.cpp:126-142 | corrected: the registered delay is never 0, and whenever the hint differs from now the wake-up lands on the hint |
| VpiCallbacks.InoutSkipAgreesWithAddPort | cpp/VpiCallbacks.cpp:202-205 | skipping inout ports gives the same tables as handing every port to `add_port` |
| VpiCallbacks.InputPorts | cpp/VpiCallbacks.cpp:209 | the filtered ports are input ports of the scan |
| VpiCallbacks.OnlyInputsWatched | cpp/VpiCallbacks.cpp:209-218 | one value-change callback per input port, in scan order, on that port's net, and no other |
| VpiCallbacks.ScanInstancesAppend | cpp/VpiCallbacks.cpp:186-221 | instances are processed one after another: scanning a concatenation is scanning the parts in turn |
| VpiCallbacks.InstanceCallsAppend | cpp/VpiCallbacks.cpp:186-221 | the registrations of a concatenation are those of its parts in turn |
| VpiCallbacks.MissingInstanceSkipped | cpp/VpiCallbacks.cpp:188-191 | an instance that cannot be found contributes nothing, and the instances after it are still processed |
| VpiCallbacks.StartNgSpice | cpp/VpiCallbacks.cpp:226-246 | start-up succeeds exactly when both inits return 0 and ngspice runs; then it sends the netlist path and `bg_run`; any failure ends with `vpiFinish` |
| VpiCallbacks.DrainCount | cpp/AnalogDigitalInterface.cpp:213-238 | the writes of one drain number exactly the changed outputs |
| VpiCallbacks.Simulator.constructor | cpp/VpiCallbacks.cpp:21-22 | starts disarmed with no pending wake-up |
| VpiCallbacks.Simulator.PortChangeCb | cpp/VpiCallbacks.cpp:43-92 | the statics and calls are exactly those of `PortChange` |
| VpiCallbacks.Simulator.TimestepPublish | cpp/VpiCallbacks.cpp:95-110 | when armed: SPICE slot set to now and redo requested, before the HDL slot gets now+1 (wrapping); when not armed: neither the SPICE slot nor the redo flag changes |
| VpiCallbacks.Simulator.TimestepResume | cpp/VpiCallbacks.cpp:113-145 | inputs polled (`UpdateAll` in the map's iteration order) only when armed; disarmed afterwards; outputs drained, with one write per changed output, each key once, each write the output's value as a real or its logic level; re-registered after `TimestepDelay(hint, now)` in both words (`DelayTime`), and that handle kept as pending |
| VpiCallbacks.Simulator.RegisterInstances | cpp/VpiCallbacks.cpp:186-221 | the registry becomes `ScanInstances` of the configured names, and the registrations are `InstanceCalls` |
| VpiCallbacks.Simulator.RegisterPorts | cpp/VpiCallbacks.cpp:196-220 | the port loop of one instance yields `ScanPorts` and registers `ValueChangeCalls` |
| VpiCallbacks.Simulator.StartOfSim | cpp/VpiCallbacks.cpp:147-266 | a failed configuration returns 1 with no call and no change; otherwise the settings get the precision, a fresh registry over them is filled from the instances, and ngspice is started; only on success is HDL time 1 published into the barrier (nothing after shutdown), its wait reported and a zero-delay time step registered as pending; on failure the barrier and the pending handle stay; the armed flag never changes |
| VpiCallbacks.Simulator.EndOfSim | cpp/VpiCallbacks.cpp:268-279 | shuts the barrier, keeping its slots, redo flag and hint, then halts ngspice and writes `dump.raw` |

## Findings

| source | as written | input that shows it | evidently intended | confidence | as-written member | corrected member |
|---|---|---|---|---|---|---|
| cpp/VpiCallbacks.cpp:126-138 | the 64-bit `time_low` is stored in the 32-bit `low` word of the `s_vpi_time`, with `high` set to 0 | current time 0, step-end hint 2^32: `time_low` is 2^32, the registered delay is 0, and the callback comes back at time 0 instead of 2^32 | split the delay over both words, so the wake-up lands on the hint and is never 0 as the `time_low < 1` guard wants | medium, not executed | VpiCallbacks.WrittenDelayMissesHint | VpiCallbacks.WakeUpLandsOnHint |

## Left out

- Floating point: voltages and thresholds are exact reals. The tick conversions are not modelled: `llround(x * time_precision)` in `ng_sync` and `ng_srcdata`, and `pow(10, -precision)` at start of simulation. Times enter as integer ticks.
- NgSpice.Sync: the redo length is computed in ticks. The source computes it in double-precision seconds, clamped to one tick, which can differ from it by rounding.
- Concurrency: the barrier's mutex, condition variable and the two threads are not modelled. `Update` publishes and reports whether the wait is released, shut down or still blocked. `vpi_timestep_cb` is split at its wait into `TimestepPublish` and `TimestepResume`, and `ng_srcdata` into `NgSrcDataPublish` and `NgSrcDataAnswer`; what the other engine's callbacks do during a wait happens between the two halves.
- `std::atomic` loads and stores, and the two map mutexes, are ordinary reads and writes.
- unordered_map iteration order: loops whose result does not depend on it pick keys in an unspecified order. `UpdateAllDigitalInputs` takes the order as a parameter.
- Bridge.Interface.SetDigitalOutput: the trace of writes has no fixed order, because the map's order is not modelled.
- Environment reading and `std::stod` are not modelled. `LoadFromEnvironment` takes the variables as already-parsed optional values. The `std::invalid_argument` of a malformed number is not modelled.
- VpiCallbacks.Simulator.TimestepResume: registers the corrected two-word delay (`DelayTime`), not the truncated one the code writes; `WrittenDelay` models the code's form.
- VpiCallbacks.Simulator.StartOfSim: the log lines, the one-second sleep and the reading of the simulator's time unit and precision exponent are not modelled. The precision arrives as a parameter.
- The `null` checks on handles in `update_all_digital_inputs` and at callback registration are not modelled. A registered handle is never null, because `add_port` only files non-null handles. The value-change registration keeps the possibly-null net as an `Option`.
- The `PortInfo` copy and move operations and `print_status` are not modelled: they copy fields and log.
- `ng_printf`, `ng_exit`, `register_vpi_callbacks`, `vpi_module.cpp` and `Debug.h` are not modelled. They are logging and start-up glue with no state of the core.
- The unused `new_delta_time_spice` in `ng_sync` is not modelled: it is computed only for a log line.
- The ngspice solver, the logic simulator and VPI are not modelled. Only the answers they give to the bridge appear, as parameters.
