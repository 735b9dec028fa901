# SPI button controller on the BeagleBone PRU: a Dafny model

This project models the host (ARM) side of a PRU-emulated full-duplex SPI
link, plus the daemon logic that turns register changes into commands:

- `PruContext` — the shared-memory `PruSpiContext` overlaid on PRU data RAM:
  two 1024-byte buffers used as a double buffer, the active-buffer index,
  the transmission length and the slave's maximum transmission length.
  A class over `array<array<bv8>>`; `reset` zeroes it in place with loops.
- `PruMaster` — the `PruSpiMaster` controller: its lifecycle flags, stop
  flags, monitor-thread slot and callback slot, operations on an optional
  mapped context (a `null` reference is the unmapped null pointer), and the
  two polling loops, `wait_for_transmission_to_complete` and the monitor
  `loop_fn`. Both loops run over a trace of the values each iteration
  observes, because other threads and the firmware change those values.
- `Configuration` — the daemon's configuration records and `Config::default`.
- `Daemon` — the register-polling daemon: change detection against stored
  register states, debounce through last-event times, masked trigger
  matching and configuration reload. Each SPI read is an oracle result
  (`Some(byte)` or `None` for a failed read). Time is a millisecond `nat`.
- `Command` — `send_klipper_command`: the `klipper:METHOD|PARAMS` splitter,
  the JSON-RPC body, the trimmed URL and the single response record. JSON
  parsing and the HTTP request are oracle functions passed in.
- `Types` — `Option`, `Outcome` (a `Result<()>`) and the integer widths.

## Notes on the code

- The monitor holds the callback lock while the callback runs (rust-bb-pru-spi-duplex/src/pru_master.rs:235-236). This does not matter to the sequential model.
- `get_data` and `get_data_mut` do not fall back for an out-of-range index, unlike the context's own accessors (see Findings).
- `wait_for_transmission_to_complete` has no timeout. Its `sleep_time` only sets the pause between checks.

## Model

| member | source | states |
|---|---|---|
| `PruContext.ActiveIndex` | rust-bb-pru-spi-duplex/src/pru_context.rs:44-61 | the accessors select index 0 or 1 as stored and region 0 for every other value, so never out of bounds |
| `PruContext.ContextSize` | rust-bb-pru-spi-duplex/src/pru_context.rs:38-41 | the context's size is positive, covers both buffers and is a whole number of 4-byte words |
| `PruContext.PruSpiContext.constructor` | rust-bb-pru-spi-duplex/src/pru_context.rs:29-36 | a new context has index, length and slave maximum 0 and all 2×1024 bytes zero |
| `PruContext.PruSpiContext.GetBuffer` | rust-bb-pru-spi-duplex/src/pru_context.rs:54-61 | the current region is `buffers[buffer]` for index 0 or 1, region 0 otherwise, and is always 1024 bytes long |
| `PruContext.PruSpiContext.GetBufferMut` | rust-bb-pru-spi-duplex/src/pru_context.rs:44-51 | the mutable view is one of the two regions, chosen by the same fallback rule, 1024 bytes long |
| `PruContext.PruSpiContext.WriteCurrent` | rust-bb-pru-spi-duplex/src/pru_context.rs:44-51 | a write through the mutable view changes one byte of the current region; the other region and the three scalar fields stay unchanged |
| `PruContext.PruSpiContext.Reset` | rust-bb-pru-spi-duplex/src/pru_context.rs:64-71 | from any prior state the context equals the zero state `new` produces, so a second reset changes nothing |
| `PruMaster.DataIndex` | rust-bb-pru-spi-duplex/src/pru_master.rs:167-190 | `get_data` indexes the stored buffer value directly and is defined only for 0 and 1 |
| `PruMaster.DataIndexPanicsOutOfRange` | rust-bb-pru-spi-duplex/src/pru_master.rs:172-185 | a stored index of 2 makes `get_data` panic where the context accessors fall back to region 0 |
| `PruMaster.PruSpiMaster.constructor` | rust-bb-pru-spi-duplex/src/pru_master.rs:30-41 | a new master is neither initialised nor enabled, unmapped, not stopped, with no thread and no callback |
| `PruMaster.PruSpiMaster.Init` | rust-bb-pru-spi-duplex/src/pru_master.rs:44-78 | `init` always returns Ok and leaves both flags set and everything else as it was, so calling it twice equals calling it once |
| `PruMaster.PruSpiMaster.Start` | rust-bb-pru-spi-duplex/src/pru_master.rs:81-105 | `start` replaces the callback only when one is given, clears only the internal stop flag and fills the thread slot |
| `PruMaster.PruSpiMaster.Stop` | rust-bb-pru-spi-duplex/src/pru_master.rs:108-112 | `stop` raises the internal stop flag and clears the callback, leaving the thread slot alone |
| `PruMaster.PruSpiMaster.Wait` | rust-bb-pru-spi-duplex/src/pru_master.rs:115-120 | `wait` empties the thread slot and fails only when a held thread fails to join; a second wait returns Ok |
| `PruMaster.PruSpiMaster.Cleanup` | rust-bb-pru-spi-duplex/src/pru_master.rs:193-208 | `cleanup` clears both flags, the memory mapping and the callback; a second call is a no-op |
| `PruMaster.PruSpiMaster.Drop` | rust-bb-pru-spi-duplex/src/pru_master.rs:255-261 | dropping stops, joins and cleans up: stopped, no callback, no thread, nothing initialised or mapped |
| `PruMaster.PruSpiMaster.IsTransmissionDone` | rust-bb-pru-spi-duplex/src/pru_master.rs:123-132 | done iff the context is mapped and its length is 0; never done while unmapped |
| `PruMaster.PruSpiMaster.GetBuffer` | rust-bb-pru-spi-duplex/src/pru_master.rs:145-154 | the context's buffer index, or 0 while unmapped |
| `PruMaster.PruSpiMaster.StartTransmission` | rust-bb-pru-spi-duplex/src/pru_master.rs:157-164 | when mapped, only the length changes, to `n`, so a positive `n` makes the transmission not done; when unmapped nothing changes |
| `PruMaster.PruSpiMaster.GetData` | rust-bb-pru-spi-duplex/src/pru_master.rs:179-190 | None exactly when unmapped, else the 1024-byte region at the stored index |
| `PruMaster.PruSpiMaster.GetActiveData` | rust-bb-pru-spi-duplex/src/pru_master.rs:179-190 | the corrected `get_data`: None exactly when unmapped, otherwise the context's current region (region 0 for a stored index of 2 or more), and equal to the as-written result wherever that is defined |
| `PruMaster.PruSpiMaster.GetDataMut` | rust-bb-pru-spi-duplex/src/pru_master.rs:166-177 | None exactly when unmapped, else the region array at the stored index |
| `PruMaster.PruSpiMaster.ShouldStop` | rust-bb-pru-spi-duplex/src/pru_master.rs:244-246 | `should_stop()` holds iff either stop flag is raised; it is exactly the monitor's exit test and lets the wait loop return |
| `PruMaster.PruSpiMaster.Snapshot` | rust-bb-pru-spi-duplex/src/pru_master.rs:136-138 | what the wait loop observes allows it to return iff `should_stop()` holds or the transmission is done |
| `PruMaster.WaitForTransmissionToComplete` | rust-bb-pru-spi-duplex/src/pru_master.rs:134-142 | returns at the first check that sees a stop flag or a finished transmission and at no earlier one; with no such check it keeps waiting, since the sleep time is no deadline |
| `PruMaster.MonitorLoop` | rust-bb-pru-spi-duplex/src/pru_master.rs:210-241 | starting from `last_buffer = 0`, the loop exits at the first stop flag and runs the callback at exactly the iterations `FiredBefore` lists |
| `PruMaster.FiredBeforeExactly` | rust-bb-pru-spi-duplex/src/pru_master.rs:217-240 | an iteration runs the callback iff it is unstopped, mapped, sees an index different from the last observed one, and a callback is registered |
| `PruMaster.FiredBeforeIncreasing` | rust-bb-pru-spi-duplex/src/pru_master.rs:217-240 | callback iterations are strictly increasing, so each observed change fires at most once |
| `PruMaster.NoFireOnRepeat` | rust-bb-pru-spi-duplex/src/pru_master.rs:226-231 | an index equal to the previous observation never fires, nor does an initial observation of 0 |
| `Configuration.DefaultConfig` | rust-bb-pru-spi-duplex/src/config.rs:40-57 | defaults: device "/dev/spidev0.0", bus 0, chip select 0, 1 MHz, mode 0, polling 100 ms, debounce 50 ms, no registers |
| `Daemon.MatchesTrigger` | src/daemon.rs:134-140 | without a mask the value must equal the trigger's; a full mask is plain equality; a trigger value with bits outside its mask never matches |
| `Daemon.MaskExample` | src/daemon.rs:171-186 | with mask 0x01 and value 0x01 both 0x01 and 0x03 match, 0x02 does not |
| `Daemon.MatchingTriggersExactly` | src/daemon.rs:102-116 | every matching trigger of the register runs, not only the first, and no other trigger runs |
| `Daemon.MatchingTriggersAppend` | src/daemon.rs:102-116 | triggers run in configuration order: selection distributes over concatenation |
| `Daemon.ProcessTriggers` | src/daemon.rs:97-132 | the loop runs exactly the matching triggers, in order |
| `Daemon.ShouldTriggerEvent` | src/daemon.rs:142-150 | with no earlier event it triggers; within `debounce_ms` of the last event it does not; from `debounce_ms` on it does |
| `Daemon.PollRegister` | src/daemon.rs:49-88 | a failed or unchanged read changes nothing; a changed value is stored even when debounced; only a change undebounced at the clock's check time runs its triggers and records the later time read after they ran; other registers are untouched |
| `Daemon.DebouncedAfterEvent` | src/daemon.rs:67-73 | the debounce interval counts from the event time recorded after the commands ran, so a change checked before it has elapsed raises no event |
| `Daemon.PollAllFailed` | src/daemon.rs:82-87 | a poll whose reads all fail leaves both maps unchanged and runs nothing |
| `Daemon.PollKeepsAddresses` | src/daemon.rs:46-95 | a poll keeps the stored states covering exactly the configured addresses and event times within them |
| `Daemon.PollRecordsLastRead` | src/daemon.rs:54-64 | after a poll, a register's stored value is its last successful read in that poll |
| `Daemon.InitialRegisterStates` | src/daemon.rs:29-32 | the initial state map has exactly the configured addresses as keys, each mapped to 0 |
| `Daemon.Daemon.constructor` | src/daemon.rs:18-44 | a new daemon maps exactly the configured addresses to 0 and has no event times |
| `Daemon.Daemon.Poll` | src/daemon.rs:46-95 | a poll goes through the registers in order as `PollSpec` does, each register reading its own debounce-check and record times, and keeps the daemon's invariant |
| `Daemon.Daemon.ReloadConfig` | src/daemon.rs:152-164 | reload installs the new configuration, maps exactly its addresses to 0 and empties the event times |
| `Command.StripKlipperPrefix` | src/command.rs:109 | a leading "klipper:" is removed; without it the whole command is the payload |
| `Command.FindChar` | src/command.rs:112 | the first occurrence of the separator, or none when it does not occur |
| `Command.SplitMethodParams` | src/command.rs:112-114 | the method is the text before the first '\|' and never contains one; method, '\|' and params rebuild the payload; without '\|' params is "{}" |
| `Command.ParseCommand` | src/command.rs:109-114 | the method never contains '\|'; with a '\|' the optional "klipper:", method, '\|' and params rebuild the command; without one params is "{}" and the method is the command minus any "klipper:" |
| `Command.ParseComposedCommand` | src/command.rs:95-114 | `klipper:METHOD\|PARAMS` splits back into METHOD and PARAMS whenever METHOD has no '\|', whatever PARAMS holds |
| `Command.TrimTrailingSlashes` | src/command.rs:141 | the URL is cut to a prefix that does not end in '/' with only '/' characters removed |
| `Command.TrimTrailingSlashesIdempotent` | src/command.rs:141 | trimming a trimmed URL changes nothing |
| `Command.BuildRequestBody` | src/command.rs:132-137 | the body has exactly the keys jsonrpc = "2.0", id = the request id, method and params |
| `Command.StatusText` | src/command.rs:147 | the status text is three characters, each a decimal digit, whose value is the code |
| `Command.SendKlipperCommand` | src/command.rs:100-171 | unparsable params give one `invalid_params` response with an empty request id and no request; otherwise the request goes to the trimmed URL with the JSON-RPC body, and the response carries the request id and the status, or success false and "error: " plus the message on a transport error |

## Left out

- Threads, atomics, the callback mutex and sleeps: both loops are sequential functions of the values each iteration observes.
- The raw pointer mapping: the context handle is a nullable reference, and nothing in the modelled code installs it (`init` only logs where the mapping would happen).
- Callback bodies: the monitor records the iterations at which a callback runs, not what it does.
- `PruMaster.WaitForTransmissionToComplete`: the `sleep_time` argument is dropped, since it only sets the pause between checks.
- `PruMaster.PruSpiMaster.GetData`: an index of 2 or more is a precondition, because the code panics there (see Findings).
- The slave controller (`pru_slave.rs`) is not part of this model.
- PRU driver calls, firmware files and pin constants (`ffi.rs`), and device-file I/O (`spi.rs`), become oracle parameters or are left out.
- `Daemon.Daemon.constructor`: does not model the failure of opening the SPI device, which returns an error before any daemon exists.
- `Daemon.Daemon.Poll`: does not model the sleep of `interval_ms` at the end of a poll. Times are whole milliseconds, not `Instant`'s finer resolution. The clock readings are parameters, so the model does not require them to be non-decreasing.
- `PruMaster.PruSpiMaster.Wait`: `join` blocks until the monitor thread sees a stop flag (rust-bb-pru-spi-duplex/src/pru_master.rs:116-117, 219-222). The model returns at once with the join's outcome as a parameter. It does not capture the wait itself, or that a wait without an earlier `stop` or external stop never returns.
- `PruMaster.PruSpiMaster.Start`: a second `start` without `stop` and `wait` overwrites the thread handle (rust-bb-pru-spi-duplex/src/pru_master.rs:98-102). The first monitor is detached but keeps running, because line 91 cleared `should_stop`. The model has one thread slot and one monitor trace. It does not capture two monitors running at once, nor that each then runs the callback for every buffer change it observes, so a change can fire once per running monitor.
- Shell command execution (`CommandExecutor::execute`): `process_triggers` reports which triggers ran. Success or failure of a command only affects logging.
- JSON parsing, the HTTP client and the response channel are oracles. `EventMessage::Issued` is declared but not produced by the modelled code. The body is a map, so key order is not modelled.
- Entry points, signal handling, YAML loading and the demo program are not part of this model. `src/config.rs` is not part of this model either; the daemon uses the records of `rust-bb-pru-spi-duplex/src/config.rs`.
- Logging everywhere.

## Findings

| source | as written | input that shows it | evidently intended | confidence | as-written member | corrected member |
|---|---|---|---|---|---|---|
| rust-bb-pru-spi-duplex/src/pru_master.rs:167-190 | `get_data`/`get_data_mut` index `buffers[buffer]` with no range check, so any stored index of 2 or more panics | a mapped context whose `buffer` field reads 2 | fall back to buffer 0, as `PruSpiContext::get_buffer` does (pru_context.rs:54-61) | medium; not executed | `PruMaster.DataIndexPanicsOutOfRange` | `PruMaster.PruSpiMaster.GetActiveData` |
