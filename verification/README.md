# Enbio WiFi machine: register-level control core

This project models the host-side controller of the Enbio sterilizer. The
controller drives the device over Modbus RTU, and every device operation
comes down to a short sequence of 16-bit register reads and writes plus
some bit-level encodings. The Dafny project covers the following.

- **Transport** (`transport.dfy`): a device session is a `Bus`. It holds
  the trace of requests issued so far and the replies the device still has
  to give, in order. Each read consumes one reply. A missing reply, or one
  of the wrong shape, is a transport fault. `Writes` projects the write
  requests of a trace, and `Store` replays them onto an ideal register file.
- **Register map** (`registers.dfy`): the `ModbusRegister` address table.
  Registers the controller uses but whose addresses are defined elsewhere
  are kept abstract (`External`).
- **Verified writes** (`feedback.dfy`): the value-verified write and the
  control-flag write.
- **Door drive** (`door.dfy`): `_drv_coil_until` and the
  lock/unlock/forward/backward/stop operations. The wall-clock timeout
  becomes an optional poll budget.
- **Codecs** (`codecs.dfy`, `words.dfy`):
  - the firmware version (7/5/4 bits), the board number, the DIP switches
    and the valves-and-relays bitfield;
  - the NUL-padded device id;
  - the two-word join of a float register.
- **Common tables** (`common.dfy`): process types and their selectors,
  the command-line labels, `await_value` and `read_float_register`.
- **Machine operations** (`machine.dfy`):
  - device id, board number, firmware version and DIP switches;
  - float word order and heater counters;
  - power state;
  - `start_process` and `interrupt_process`.
- **Process runner** (`runner.dfy`): `ProcRunner.start`, `interrupt` and
  `poll_progress`.

Python's `&`, `|`, `<<` and `>>` are modelled on unbounded naturals
(`BitAnd`, `BitOr`, `ShiftLeft`, `ShiftRight`). They are proved against
arithmetic bit extraction (`Bit`).

The door direction and stop commands `door_drv_fwd`, `door_drv_bwd` and
`door_drv_none` use the value-verified write with values 2, 1 and 0
(enbio_wifi_machine/machine.py:165-172).

## Model

| member | source | states |
|---|---|---|
| Words.JoinInRange | enbio_wifi_machine/common.py:19-23 | for two register words, `first << 16 \| second` is `first * 65536 + second` and lies within [0, 0xFFFFFFFF], so the range assertion never fires |
| Words.SplitJoin | enbio_wifi_machine/common.py:22 | splitting a joined pattern into `(w >> 16, w & 0xFFFF)` gives back both register words |
| Words.JoinSplit | enbio_wifi_machine/common.py:22 | every 32-bit pattern splits into two register words whose join is the pattern again |
| Words.AndLowMask | enbio_wifi_machine/machine.py:206-208 | masking with `2^k - 1` keeps exactly the low k bits (the value mod 2^k) |
| Words.AndSingleBit | enbio_wifi_machine/machine.py:249 | `w & 2^k > 0` holds exactly when bit k of w is set |
| Words.OrDisjoint | enbio_wifi_machine/machine.py:221 | `(a << n) \| b` is an addition when b fits below bit n |
| Registers.Address | enbio_wifi_machine/modbus_registers.py:4-85 | every named address is below 65536, and the reverse table maps it back to the same register |
| Registers.AddressesDistinct | enbio_wifi_machine/modbus_registers.py:4-85 | two registers share an address if and only if they are the same enum member (no aliasing) |
| Registers.SecondWordUnnamed | enbio_wifi_machine/modbus_registers.py:39-71 | no register is named at the word after a float slot (scale factors, sensors, ADC floats, TEST_FLOAT) |
| Registers.FloatSlotSecondWordFree | enbio_wifi_machine/modbus_registers.py:39-71 | no named register sits at the second word of any float slot |
| Registers.FloatSlotDisjoint | enbio_wifi_machine/modbus_registers.py:39-71 | both words of a float slot are apart from every other named register |
| Registers.DeviceIdRegionFree | enbio_wifi_machine/machine.py:142-144 | the 32 registers from DEVICE_ID (1024..1055) hold no other named register |
| Feedback.WriteRegFeedback | enbio_wifi_machine/machine.py:52-64 | exactly one write of the value, then one read of the same register and no retry; succeeds if and only if the read-back equals the value; a mismatch names both values |
| Feedback.WriteCtrlRegFeedback | enbio_wifi_machine/machine.py:66-79 | always writes 1, then reads once; succeeds if and only if the read-back is 0, so 1 or 0xFFFF raises; the corrected mismatch names 0 as the expected value; the runner's copy (enbio_wifi_machine/proc_runner.py:18-31) is the same |
| Feedback.CtrlCheck | enbio_wifi_machine/machine.py:66-79 | the shared body of both control-flag writes: one write of 1, one read; succeeds if and only if 0 reads back; any other word raises a mismatch naming the given expected value and the word read; every failure is a transport fault or a mismatch |
| Feedback.WriteCtrlRegFeedbackAsWritten | enbio_wifi_machine/machine.py:66-79 | as written: the same writes and success condition, but the mismatch names the activating value 1 as the expected value |
| Feedback.CtrlMismatchAsWrittenNamesSameValue | enbio_wifi_machine/machine.py:77-79 | as written, a device that leaves the flag at 1 is reported as "expected 1, got 1" |
| Feedback.MismatchNamesDifferentValues | enbio_wifi_machine/machine.py:52-79 | in the corrected model, every mismatch either verified write raises names two different values |
| Door.IsDoorOpen | enbio_wifi_machine/machine.py:159-160 | one read of DOOR_OPEN; true if and only if the register is non-zero; a failed read raises |
| Door.IsDoorUnlocked | enbio_wifi_machine/machine.py:162-163 | one read of DOOR_UNLOCKED; true if and only if the register is non-zero; a failed read raises |
| Door.ReadSensor | enbio_wifi_machine/machine.py:159-163 | a sensor read issues one read and no write; the answer is true if and only if the register is non-zero |
| Door.DoorConditionsAreSensor | enbio_wifi_machine/machine.py:174-190 | the lock drive's stop condition is `not is_door_unlocked()` and the unlock drive's is `is_door_unlocked()`, both on the same register read |
| Door.DrvFwd | enbio_wifi_machine/machine.py:165-166 | writes the forward command 2 to the coil and reads it back; succeeds if and only if 2 reads back |
| Door.DrvBwd | enbio_wifi_machine/machine.py:168-169 | writes the backward command 1 to the coil and reads it back; succeeds if and only if 1 reads back |
| Door.DrvNone | enbio_wifi_machine/machine.py:171-172 | writes the stop command 0 to the coil; succeeds if and only if 0 reads back |
| Door.FailSafe | enbio_wifi_machine/machine.py:133-135 | the handler always writes stop and then raises: the original error, or the stop's own error if the stop fails |
| Door.Finish | enbio_wifi_machine/machine.py:121-135 | every way out of the loop adds one stop with its read-back, or two on timeout or when the first stop fails; success if and only if the condition was met and the stop accepted; a spent budget with both stops accepted raises the timeout for the action; a failed read with the stop accepted is raised again |
| Door.PollOnce | enbio_wifi_machine/machine.py:121-127 | one poll keeps the loop state: met, faulted, or one more unmet poll that times out only with a budget, once it is spent |
| Door.PollUntil | enbio_wifi_machine/machine.py:121-127 | the loop's only requests are reads of the sensor register, one per poll; the replies decide the outcome, in both directions: met at the first met poll within the budget, timed out exactly when budget+1 polls in a row are unmet, faulted with the sensor's transport error exactly when a read fails before either |
| Door.PollThenStop | enbio_wifi_machine/machine.py:120-135 | after the direction write, the requests are sensor reads then one or two stops; success exactly when the condition is met within the budget and the stop is echoed; a spent budget with both stops echoed raises the timeout; a failed read with the stop echoed raises the sensor's transport error |
| Door.DriveCoilUntil | enbio_wifi_machine/machine.py:112-135 | a rejected direction raises with no stop; once the direction is accepted, the requests are the direction check, reads of the condition's sensor only, then the stop on every exit, twice on timeout or when the first stop fails; success if and only if the replies complete the drive; replies that spend the budget raise the timeout for the action, and replies with a failed read raise the sensor's transport error |
| Door.DoorLockWithFeedback | enbio_wifi_machine/machine.py:174-181 | a rejected forward command is `door_drv_fwd`'s failure; otherwise the forward check, reads of DOOR_UNLOCKED only, then the stop; succeeds if and only if the sensor reads 0 within the budget and the stop is echoed; budget+1 non-zero reads with the stops echoed raise the "lock" timeout; a failed read with the stop echoed is raised again; never times out without a budget |
| Door.DoorUnlockWithFeedback | enbio_wifi_machine/machine.py:183-190 | a rejected backward command is `door_drv_bwd`'s failure; otherwise the backward check, reads of DOOR_UNLOCKED only, then the stop; succeeds if and only if the sensor reads non-zero within the budget and the stop is echoed; budget+1 zero reads with the stops echoed raise the "unlock" timeout; a failed read with the stop echoed is raised again; never times out without a budget |
| Codecs.VersionSplit | enbio_wifi_machine/machine.py:204-209 | every register word splits into major/minor/patch fields of 7/5/4 bits that recompose to the word |
| Codecs.VersionJoin | enbio_wifi_machine/machine.py:204-209 | a version whose fields fit 7/5/4 bits is decoded unchanged from its word |
| Codecs.Decimal | enbio_wifi_machine/machine.py:209 | `str(n)` is a canonical numeral: digits only, with no leading zero, and non-zero numbers start with a non-zero digit |
| Codecs.DecimalValue | enbio_wifi_machine/machine.py:209 | the decimal text of a number reads back as that number |
| Codecs.NumeralIsDecimal | enbio_wifi_machine/machine.py:209 | every canonical numeral is `str` of the number it spells, so `str(n)` is the only canonical text of n |
| Codecs.DipSwitchBits | enbio_wifi_machine/machine.py:247-249 | switch k is bit k of the DIP register |
| Codecs.DipSwitchRoundTrip | enbio_wifi_machine/machine.py:247-249 | encoding four switches as bits 0..3 and decoding gives them back |
| Codecs.DipSwitchIgnoresHighBits | enbio_wifi_machine/machine.py:247-249 | bits above bit 3 do not affect the switches |
| Codecs.ValveRelayBits | enbio_wifi_machine/proc_runner.py:69-80 | flag k of v1, v2, v3, v5, pvac, pwtr, ch_ab, sg_a, sg_b, sg_c is bit k of the register |
| Codecs.ValveRelayRoundTrip | enbio_wifi_machine/proc_runner.py:69-80 | encoding the ten flags as bits 0..9 and decoding gives them back |
| Codecs.ValveRelayIgnoresHighBits | enbio_wifi_machine/proc_runner.py:69-80 | bits 10..15 of the register do not affect any flag |
| Codecs.BoardNumberFields | enbio_wifi_machine/machine.py:211-213 | unpacking gives the revision letter from bits 11.., a 7-bit year and a 4-bit month |
| Codecs.PackedBoardNumber | enbio_wifi_machine/machine.py:219-221 | with a 7-bit year and a 4-bit month the packing adds disjoint fields and fits one register |
| Codecs.BoardNumberRoundTrip | enbio_wifi_machine/machine.py:211-221 | unpacking a packed board number gives back the revision, year and month |
| Codecs.BoardNumberRepack | enbio_wifi_machine/machine.py:211-213 | every word with a revision code below 26 is the packing of what it unpacks to |
| Codecs.BoardNumberYearOverflow | enbio_wifi_machine/machine.py:215-221 | with no range check, revision 'A' of year 128 is packed as the word for revision 'B' of year 0 |
| Codecs.PadNul | enbio_wifi_machine/machine.py:141-142 | padding keeps the id as a prefix, fills with NUL up to the field length, and never shortens |
| Codecs.StripNul | enbio_wifi_machine/machine.py:148-150 | stripping gives a prefix with no trailing NUL, and only NULs are removed |
| Codecs.StripPadded | enbio_wifi_machine/machine.py:137-150 | stripping the padding gives back an id that does not itself end in NUL |
| Common.Selector | enbio_wifi_machine/common.py:54-61 | the selector table is total, and no selector is 0, 1 or 0xFFFF, the sentinels of the select/start register |
| Common.SelectorInverse | enbio_wifi_machine/common.py:54-61 | the selector table is injective: a word selects a type if and only if it is that type's selector |
| Common.EnumValueInjective | enbio_wifi_machine/common.py:32-38 | the six enum values are 1..6 and pairwise different |
| Common.Label | enbio_wifi_machine/common.py:41 | every process type's label is one of the listed labels |
| Common.LabelKeys | enbio_wifi_machine/common.py:41-51 | the label map's keys are exactly the listed labels, each listed once |
| Common.LabelBijection | enbio_wifi_machine/common.py:44-51 | the label map is a bijection onto the process types, with `Label` as its inverse |
| Common.AwaitValue | enbio_wifi_machine/common.py:8-16 | True on the first matching poll, checked before the deadline, and a first match within the budget is always True; a call that raises ends the wait with its error, exactly when it comes first within the budget; False only after a non-matching poll once a given budget is spent, and always when budget+1 polls miss; never False without a timeout |
| Common.ReadFloatRegister | enbio_wifi_machine/common.py:19-23 | one two-register read; the pattern fits 32 bits and splits back into the two words, the first one high |
| Machine.SetDeviceId | enbio_wifi_machine/machine.py:137-145 | an id longer than 32 raises with no request; otherwise exactly one string write of the id padded with NUL to 32 characters |
| Machine.ReadDeviceId | enbio_wifi_machine/machine.py:147-150 | one string read of the 32-character field, trailing NULs stripped |
| Machine.GetDeviceId | enbio_wifi_machine/machine.py:152-157 | a failed read gives "", otherwise the stripped id |
| Machine.DeviceIdRoundTrip | enbio_wifi_machine/machine.py:137-157 | reading back the field `set_device_id` wrote gives the id, when the id has no trailing NUL |
| Machine.SetBoardNumber | enbio_wifi_machine/machine.py:215-222 | a revision that is not an upper-case letter raises with no request; otherwise one write of the packed word, which fits a register and unpacks to the input for a 7-bit year and a 4-bit month |
| Machine.GetBoardNumber | enbio_wifi_machine/machine.py:211-213 | one read; the year fits 7 bits and the month 4; for a revision code below 26 the result repacks to the word read |
| Machine.BoardNumberGetAfterSet | enbio_wifi_machine/machine.py:211-222 | a device returning the word `set_boardnumber` wrote makes `get_boardnumber` return what was set |
| Machine.VersionTextOf | enbio_wifi_machine/machine.py:204-209 | the rendered version is three canonical decimal numbers (no leading zeros) joined by dots whose 7/5/4-bit packing is the register word |
| Machine.VersionTextUnique | enbio_wifi_machine/machine.py:204-209 | any text of three canonical numbers joined by dots that packs to the word is exactly the rendered version |
| Machine.GetFirmwareVersion | enbio_wifi_machine/machine.py:204-209 | one read of FIRMWARE_VERSION; the result is three canonical numbers joined by dots that pack back to the word, which by `Machine.VersionTextUnique` fixes the text |
| Machine.GetDipSwitch | enbio_wifi_machine/machine.py:247-249 | one read of DIP_SWITCH; switch k is bit k of the word |
| Machine.WriteFloatWords | enbio_wifi_machine/machine.py:47-50 | word 0 is written to the slot's address and word 1 to the next address, in that order |
| Machine.ReadFloatWords | enbio_wifi_machine/machine.py:43-45 | one two-register read at the slot; word 0 comes first |
| Machine.FloatWriteStores | enbio_wifi_machine/machine.py:47-50 | after a float write the slot holds word 0 and the next address holds word 1; no other named register changes |
| Machine.FloatReadAfterWrite | enbio_wifi_machine/machine.py:43-50 | a device that answers the two-register read with what a float write stored returns exactly the two words written, in order |
| Machine.SetHeaterToggleCounts | enbio_wifi_machine/machine.py:465-473 | one register write per given counter and none for an absent one; nothing is read |
| Machine.HeaterCountsStored | enbio_wifi_machine/machine.py:465-473 | each counter register ends up holding its given field or keeps its old contents; no other register changes |
| Machine.ReadRegisters | enbio_wifi_machine/machine.py:307-315 | one read per register, in order, and no write; succeeds if and only if every reply is a word, with those words as the result |
| Machine.GetPowerState | enbio_wifi_machine/machine.py:307-315 | reads PWR_CTRL_PATTERN, PWR_CH_DRV_MONITOR, PWR_CH_TARGET, PWR_SG_DRV_MONITOR and PWR_SG_TARGET in that order, one field each |
| Machine.PowerStateOf | enbio_wifi_machine/machine.py:307-315 | five word replies make `get_pwr_state` return those five words as its fields |
| Machine.StartChecked | enbio_wifi_machine/machine.py:275-283 | one read of PROC_STATUS; a running status (1) or a failed read raises with no further request; otherwise the selector write and the control-flag write with its read-back on PROC_SELECT_START, succeeding if and only if 0 reads back |
| Machine.StartProcess | enbio_wifi_machine/machine.py:272-283 | the first request reads CHANGE_SCREEN and the second reads PROC_STATUS; a running status (1) or a failed read raises before any write; otherwise the requests end with exactly the selector, then the activating flag and its read-back, on PROC_SELECT_START |
| Machine.InterruptProcess | enbio_wifi_machine/machine.py:296-302 | one read of PROC_STATUS, and nothing else unless it reads 1; then exactly the cancel word 0xFFFF and a verified write of the main-screen id to CHANGE_SCREEN |
| Runner.Start | enbio_wifi_machine/proc_runner.py:33-42 | one read of PROC_STATUS; a running status raises with no further request and the selection unchanged; otherwise the type is remembered, even if the flag write fails, and the requests are the selector then the flag with its read-back |
| Runner.Interrupt | enbio_wifi_machine/proc_runner.py:44-48 | one read of PROC_STATUS; a running status clears the selection and then writes exactly 0xFFFF; any other status issues nothing more and keeps the selection |
| Runner.StartAgreesWithMachine | enbio_wifi_machine/proc_runner.py:33-42 | the runner's start issues the same writes, with the same outcome, as `start_process` |
| Runner.InterruptAgreesWithMachine | enbio_wifi_machine/proc_runner.py:44-48 | the runner's interrupt issues the machine's cancel write and omits the screen switch |
| Runner.StartIgnoresSelection | enbio_wifi_machine/proc_runner.py:33-38 | only the status register decides whether a start is refused, not the remembered selection |
| Runner.PatternsAt | enbio_wifi_machine/proc_runner.py:64-67 | each measurement pattern fits 32 bits and splits back into its block's two words |
| Runner.ReadMeasurements | enbio_wifi_machine/proc_runner.py:64-67 | one two-register read per measurement, in order, and no write; succeeds if and only if every reply is a two-word block |
| Runner.PollProgressFrom | enbio_wifi_machine/proc_runner.py:50-81 | no write; the bitfield read, seven word reads, then four float reads; a complete sample succeeds if and only if every reply has the right shape |
| Runner.PollProgressFlags | enbio_wifi_machine/proc_runner.py:69-80 | flag k of a sample is bit k of VALVES_AND_RELAYS; bits 10..15 are ignored |
| Runner.PollProgressWords | enbio_wifi_machine/proc_runner.py:55-62 | the seven word fields of a sample are the seven replies after the bitfield, in order |
| Runner.PollProgressMeasurements | enbio_wifi_machine/proc_runner.py:64-67 | each measurement of a sample is the 32-bit pattern of its two-word block, first word high |
| Runner.PollProgressTrace | enbio_wifi_machine/proc_runner.py:50-67 | a complete sample issues exactly the line's twelve read requests |
| Runner.PollProgressAsWritten | enbio_wifi_machine/proc_runner.py:50-81 | the runner's sampling as written, with sg_pwr and sg_tar from PWR_SG_CTRL and PWR_SG_DRV_MONITOR; no write |
| Runner.PollProgressAsWrittenMisreadsSteamGenerator | enbio_wifi_machine/proc_runner.py:61-62 | as written, the steam-generator power is read from PWR_SG_CTRL and its target from PWR_SG_DRV_MONITOR |
| Runner.PollProgressAsWrittenNeverReadsTarget | enbio_wifi_machine/proc_runner.py:61-62 | as written, a sample never reads PWR_SG_TARGET |
| Runner.AsWrittenSkipsTarget | enbio_wifi_machine/proc_runner.py:55-62 | the line's register list as written does not include PWR_SG_TARGET |
| Runner.PollProgress | enbio_wifi_machine/proc_runner.py:50-81 | the corrected sampling, with the power fields read from `get_pwr_state`'s registers; no write |
| Runner.PollProgressPowerAgrees | enbio_wifi_machine/machine.py:307-315 | the corrected sample reads the five power registers in `get_pwr_state`'s order, and the same five replies give the same five values |

## Left out

- Serial transport, port detection and `minimalmodbus` itself are left out because they are foreign I/O. Register reads and writes are atomic trace events, replies come from a caller-supplied sequence, and a write always goes through.
- Character packing in `write_string`/`read_string` is left out. The device-id region stores the 32-character string as one value.
- `minimalmodbus` raises on a write value outside 0..65535. That range check is not modelled, because writes take any natural number.
- Sleeps and clocks are left out. Settle intervals are dropped, and every wall-clock timeout becomes an optional poll budget.
- Door.DriveCoilUntil: the deadline is stated in polls, not seconds. With `Some(n)`, the deadline counts as passed from the (n+1)-th poll that found the condition unmet.
- Common.AwaitValue: the polled function's results are given as a finite sequence, with an `Err` for a call that raised. The answer `None` stands for "still waiting when the samples ran out".
- Common.ReadFloatRegister: the IEEE-754 reinterpretation of the 32-bit pattern (`struct.pack`/`unpack`) is left out because it is floating point. The same goes for `ints_to_float`/`float_to_ints`.
- Runner.PollProgressFrom: measurements are kept as raw 32-bit patterns, so `round(..., 3)` is not applied.
- Machine.SetBoardNumber: a revision is accepted only if it is 'A'..'Z'. Python's `isalpha() and isupper()` also accepts non-ASCII upper-case letters.
- Machine.SetBoardNumber: year and month are natural numbers. Python accepts any int, and a negative year gives a negative word (enbio_wifi_machine/machine.py:221), which the write then rejects.
- There is no range check on the board-number year or month, just as in the code. Codecs.BoardNumberYearOverflow shows the effect.
- Machine.StartProcess: the activating flag write is the corrected control-flag write (see Findings). When the flag does not clear, the mismatch names 0 as the expected value; the code names 1 (enbio_wifi_machine/machine.py:79).
- Runner.Start: as for `Machine.StartProcess`, a flag that does not clear is reported with 0 as the expected value, where the runner's copy names 1 (enbio_wifi_machine/proc_runner.py:30-31).
- Machine.InterruptProcess: the main-screen id comes from `ScreenId`, which is not part of this model, so it is a parameter.
- CHANGE_SCREEN, PROC_DO_STATE, PRESSURE_RELATIVE, TEMPERATURE_EXTERNAL, ADCF_PRESS_PROCESS, HEATERS_TOGGLE_MSR_*, BACKLIGHT and USE_DEFAULT_MODBUS_PARAMS are not members of the register enum (enbio_wifi_machine/modbus_registers.py:4-86). As written, every use of them raises AttributeError. The model gives them abstract, pairwise-distinct locations (`Registers.External`) and models the code as if the names were defined.
- Machine.StartProcess: as written, the CHANGE_SCREEN read (enbio_wifi_machine/machine.py:273) raises AttributeError before any request. The model performs that read.
- Machine.InterruptProcess: as written, the screen switch (enbio_wifi_machine/machine.py:302) raises AttributeError after the 0xFFFF write. The model performs the verified switch.
- Machine.SetHeaterToggleCounts: as written, the first counter that is present raises AttributeError before any write (enbio_wifi_machine/machine.py:465-473). The model writes each present counter.
- `cfg`, `ScreenId`, `ScaleFactors`, `DOState`, `PWRState`, `SensorsMeasurements` and `HeatersToggleCounts` are not part of this model. The heater counts and the power state are modelled as plain records of their fields.
- One-line wrappers over the modelled primitives are not modelled separately:
  - `write_int_register`, `read_int_register` and the test int/float accessors;
  - the valve and relay getters and setters;
  - `clear_process_counter`, `save_all` and `reboot`;
  - the standby threshold and the scale factors;
  - the pressure and temperature getters, `get_sensors_measurements`, `get_do_state` and `get_recent_screen`;
  - `poll_process_line`.
- `get_datetime`/`set_datetime` are left out because they build and validate `datetime` values.
- The `runmonitor`/`monitor` CSV export, plotting, threads, the command-line interface and packaging are left out. They are file I/O, concurrency and glue.
- Console output (`print`) is left out.

## Findings

| source | as written | input that shows it | evidently intended | confidence | as-written member | corrected member |
|---|---|---|---|---|---|---|
| enbio_wifi_machine/machine.py:77-79 | the control-flag write raises "Expected value 1" although success needs 0 (the copy in enbio_wifi_machine/proc_runner.py:29-31 does the same) | the device leaves the flag at 1: the error reads "expected 1, got 1" | report the cleared value 0 as the expected one | high; not executed | Feedback.WriteCtrlRegFeedbackAsWritten, Feedback.CtrlMismatchAsWrittenNamesSameValue | Feedback.WriteCtrlRegFeedback, Feedback.MismatchNamesDifferentValues |
| enbio_wifi_machine/proc_runner.py:61-62 | `sg_pwr` is read from PWR_SG_CTRL (3496) and `sg_tar` from PWR_SG_DRV_MONITOR (3505) | any complete sample: request 7 reads 3496, request 8 reads 3505, and 3497 is never read | read PWR_SG_DRV_MONITOR and PWR_SG_TARGET, as `get_pwr_state` does (enbio_wifi_machine/machine.py:313-314) | medium; not executed | Runner.PollProgressAsWritten, Runner.PollProgressAsWrittenMisreadsSteamGenerator, Runner.PollProgressAsWrittenNeverReadsTarget | Runner.PollProgress, Runner.PollProgressPowerAgrees |
