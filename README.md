# Lake-SkyWater in Dafny

Lake-SkyWater (`lsw`) runs a floating station that measures water-leaving
reflectance with two radiometers. The downwelling sensor (Es/Ed) sits on
Modbus slave 2 and the upwelling one (Lu, files named `Lw`) on slave 1.
A stepper motor turns the upwelling (Lw) radiometer to face the sun,
guided by a GPS and an IMU: the heading error is zero when the
mount-corrected IMU heading equals `normalize_angle` of the solar azimuth. This project models the parts of the program
that decide things, and proves what they guarantee.

- **Utils** (`lsw/utils.py`):
  - the hemisphere-letter conversion `lnle2ll` and the quaternion rescaling `tfq2spq`;
  - the azimuth-to-bearing map `normalize_angle`;
  - the register catalogue `addresses`;
  - the decoder `process_data`, which turns one poll cycle's 16-bit register words into a record. Floats are kept as their 32-bit big-endian patterns; the word-pairing loop is a `method`.
- **PollSpec / Poller** (`lsw/main_rad.py`):
  - `PollSpec` holds one radiometer channel (`Ed_*` or `Lu_*` globals) as a pure state machine, one function per callback or `get_*` call.
  - `Poller.Channel` is a class with the same fields, whose methods perform the source's updates in place. Each method's contract is the matching `PollSpec` function.
  - The gateway is a fresh-id counter and an outbox of requests and waits.
  - `Poller.RunRepetitions` is the repetition loop of `main`.
  - Proved:
    - the reachable-state invariant (`WellFormed`);
    - the retry, advance and completion behaviour of each callback;
    - a whole clean cycle: trigger, warm-up at most once, the nine reads in poll order, one record;
    - `n` repetitions give `n` records.
- **GeoSpec / Geo** (`lsw/main_geo.py`):
  - `GeoSpec` covers the correction rule of `cb_quaternion`, the target update of `cb_coordinates`, and `main` as one function `Run` of the GPS status polls, readings and events. pvlib's solar azimuth and scipy's rotations are the functions of a `Numerics` parameter.
  - `cb_coordinates` builds its position row in one of two ways, chosen by a `RowFormat` parameter: `FloatAltitude` is the code as written, `StrAltitude` converts the altitude with `str` (see "## Findings").
  - `Geo.GracefulKiller` and `Geo.Station` are the signal flag and the module globals as classes. `Geo.RunStation` is `main` with its two loops, proved equal to `GeoSpec.Run` for either format.
  - Proved:
    - the start-up order;
    - as written, no session ever stops or powers off the motor: the final `cb_coordinates` always raises, and `main` ends right after disarming;
    - with `str(altitude)`, a signalled session stops and powers off the motor in the shutdown order, and only then;
    - only corrections between arming and disarming;
    - one orientation row per sample.
- **Cli** (`lsw/cli.py`) and **Plot** (`lsw/plot.py`): the file bookkeeping.
  - A directory listing is the sequence of its file names; globs, `Path.stem`, `str.split` and slices are written out in **Strings** and **Cli**.
  - `calibrate`: the already-calibrated filter and the sensor-id dispatch.
  - `draw`: the already-plotted filters and the `zip` pairing.
  - `plot.main`: the title and the figure name.

Behaviour of the code worth noting:

- **Step count for a 10° error.** `int()` truncates 740.74… to 740 steps (`GeoSpec.TenDegreesIs740Steps`).
- **Catalogue size.** The `addresses` catalogue has 14 entries: the nine polled fields and five abscissa blocks that are never read.
- **Request ids on reads.** A clean read response is accepted whatever its request id. An id mismatch is only printed on the error path, which retries because of the exception code, not because of the id (`PollSpec.ReadResponseIgnoresRequestId`).
- **Trigger ack exception code.** The exception code of the trigger acknowledgment is never looked at (`PollSpec.TriggerAckIgnoresExceptionCode`).
- **Retries.** They have no cap.
- **Decode failures.** A record that fails to decode raises inside the callback, so `busy` stays set instead of the cycle being dropped.
- **Upwelling raw files.** `calibrate` globs them as `Lu*__RAW.csv`, but `main_rad.py` names them `Lw_...__RAW.csv`, so they are never calibrated (`Cli.OnlyEsCalibrated`).

## Model

| member | source | states |
|---|---|---|
| Utils.LnLe2LL | code/lsw/utils.py:8-13 | succeeds iff the letters are N/S and E/W; the result times 10^6 is the input with sign +1 for N/E and -1 for S/W; otherwise a lookup error names the latitude letter first |
| Utils.TfqToSpq | code/lsw/utils.py:16-17 | reorders (w,x,y,z) to scalar-last (x,y,z,w), each component the input divided by 16383 |
| Utils.NormalizeAngle | code/lsw/utils.py:20-24 | bearing plus azimuth is 0 or 360; azimuths in [0,360) map into (-180,180]; those below 180 map to non-positive bearings |
| Utils.NormalizeAngleInverse | code/lsw/utils.py:20-24 | on [0,360) the azimuth is recovered from the bearing |
| Utils.NormalizeAngleUnique | code/lsw/utils.py:20-24 | the bearing is the only value in (-180,180] congruent to minus the azimuth |
| Utils.NormalizeAngleExamples | code/lsw/utils.py:20-24 | 90 gives -90, 180 gives +180, 270 gives +90, 0 gives 0 |
| Utils.Pattern32Split | code/lsw/utils.py:52-53 | the two words are recovered from the big-endian 32-bit pattern |
| Utils.Pattern32Join | code/lsw/utils.py:52-53 | every 32-bit pattern is the join of its high and low words |
| Utils.Pairs | code/lsw/utils.py:57-59 | the decoding has floor(len/2) values |
| Utils.PairsAt | code/lsw/utils.py:57-59 | value i comes from words 2i and 2i+1 |
| Utils.PairsAppend | code/lsw/utils.py:54-59 | at an even boundary, decoding the concatenation is the concatenation of the decodings |
| Utils.OddTrailingWordDropped | code/lsw/utils.py:57 | an odd trailing word is silently dropped |
| Utils.DecodeOrdinates | code/lsw/utils.py:56-59 | the loop builds exactly the pair decoding of the ordinate words |
| Utils.CatalogueCoversPollOrder | code/lsw/utils.py:29-44 | each of the nine polled addresses is in the catalogue under the field name the decoder reads; 3109 is the last read and only the last |
| Utils.PollOrderAscending | code/lsw/main_rad.py:50-53 | the reads go strictly upwards through the register map, so each field is read once per cycle |
| Utils.CatalogueKeys | code/lsw/utils.py:29-44 | the catalogue keys are the nine polled addresses plus the five abscissa blocks |
| Utils.HasAllFieldsFromNames | code/lsw/utils.py:48-54 | a dict holding the nine field names has every field the decoder reads |
| Utils.Decode | code/lsw/utils.py:47-60 | succeeds iff every field is present with the needed shape; the time passes through, integration time and length keep word 0, inclinations are the two-word patterns, ordinates the pair decoding of the five blocks in order |
| Utils.ProcessData | code/lsw/utils.py:47-60 | the imperative decoder returns exactly `Decode` |
| Utils.OrdinateBlocksDecode | code/lsw/utils.py:54-59 | 124·4+14 words decode block by block into 255 values |
| Utils.FullCycleDecodes | code/lsw/utils.py:47-60 | a dict with the word counts of the poll cycle always decodes, to 255 ordinate values |
| PollSpec.CountWarmUpsAppend | code/lsw/main_rad.py:54-56 | appending an action adds one to the warm-up count iff it is the 4.096 s wait |
| PollSpec.QueuesFollowPollOrder | code/lsw/main_rad.py:51-53 | popping the loaded queues from the end yields the poll order after 2006 |
| PollSpec.InitWellFormed | code/lsw/main_rad.py:20-32 | the state at import satisfies the invariant |
| PollSpec.StartPreservesWellFormed | code/lsw/main_rad.py:126-130 | `get_*` keeps the invariant |
| PollSpec.MismatchedAckPreservesWellFormed | code/lsw/main_rad.py:44-47 | an unexpected ack keeps the invariant |
| PollSpec.MatchingAckPreservesWellFormed | code/lsw/main_rad.py:48-57 | the expected ack keeps the invariant |
| PollSpec.TriggerAckPreservesWellFormed | code/lsw/main_rad.py:40-57 | every trigger ack keeps the invariant |
| PollSpec.ReadFaultPreservesWellFormed | code/lsw/main_rad.py:93-99 | a failed read keeps the invariant |
| PollSpec.CleanFinalPreservesWellFormed | code/lsw/main_rad.py:84-88 | the last clean read keeps the invariant |
| PollSpec.CleanMiddlePreservesWellFormed | code/lsw/main_rad.py:84-92 | any other clean read keeps the invariant |
| PollSpec.StoreKeepsWellFormed | code/lsw/main_rad.py:85 | storing a read keeps the invariant and records the current field |
| PollSpec.AdvancePreservesWellFormed | code/lsw/main_rad.py:89-92 | popping both queues arms the next slot of the poll order |
| PollSpec.ReadResponsePreservesWellFormed | code/lsw/main_rad.py:80-99 | every read response keeps the invariant |
| PollSpec.StepPreservesWellFormed | code/lsw/main_rad.py:40-141 | every input keeps the invariant |
| PollSpec.RunWellFormed | code/lsw/main_rad.py:40-141 | from import time, any sequence of calls and callbacks keeps the invariant: lookups and pops never fail and the warm-up wait is emitted at most once |
| PollSpec.RunPreserves | code/lsw/main_rad.py:40-141 | the invariant holds after any input sequence from a well-formed state |
| PollSpec.StartSendsTrigger | code/lsw/main_rad.py:126-130 | `get_*` sets busy, sends one trigger (register 2, value 1024) to its slave, and expects its id |
| PollSpec.MismatchedAckRetriggers | code/lsw/main_rad.py:44-47 | an unexpected ack waits 256 ms and re-triggers; nothing else changes |
| PollSpec.TriggerAckIgnoresExceptionCode | code/lsw/main_rad.py:43-57 | the ack's exception code has no effect |
| PollSpec.MatchingAckArmsFirstRead | code/lsw/main_rad.py:48-57 | the expected ack stamps a fresh dict, arms (2006,1) with the full queues, waits 4.096 s only the first time, then reads |
| PollSpec.ReadFaultRetriesSameSlot | code/lsw/main_rad.py:93-99 | a nonzero exception code waits 256 ms and re-reads the same address and count; nothing advances |
| PollSpec.ReadResponseIgnoresRequestId | code/lsw/main_rad.py:80-99 | responses that differ only in id have the same effect |
| PollSpec.CleanReadAdvances | code/lsw/main_rad.py:84-92 | a clean non-final read stores its words under the current field and reads the next slot of the poll order |
| PollSpec.CleanFinalReadRecords | code/lsw/main_rad.py:84-88 | the clean final read completes the dict; if it decodes, one record is appended and busy clears, with no further request |
| PollSpec.ReadRequests | code/lsw/main_rad.py:89-92 | the remaining read requests number 9 minus the slot |
| PollSpec.ReplyLast | code/lsw/main_rad.py:84-88 | answering the last read appends the record of the stored payloads and goes idle |
| PollSpec.PayloadsDecode | code/lsw/utils.py:47-60 | a dict holding the nine payloads decodes to their cycle record |
| PollSpec.ReplyMiddle | code/lsw/main_rad.py:84-92 | answering any other read stores its payload and reads the next slot |
| PollSpec.ReplyFromLast | code/lsw/main_rad.py:84-88 | the cycle closes from the last slot |
| PollSpec.ReplyFrom | code/lsw/main_rad.py:84-92 | from any slot, clean replies read the rest in poll order and append exactly one record |
| PollSpec.CleanCycle | code/lsw/main_rad.py:40-130 | a whole clean cycle: one trigger, the warm-up only on the first cycle, the nine reads in poll order, the decoded record of the payloads, then idle |
| PollSpec.TriggeredCycleArmed | code/lsw/main_rad.py:48-57 | trigger plus matching ack arm the first slot |
| PollSpec.CleanCycleVisitsPollOrder | code/lsw/main_rad.py:50-53 | a clean cycle reads 2006 first, 3109 last, the poll order in between |
| PollSpec.Records | code/lsw/utils.py:47-60 | one record per cycle |
| PollSpec.RepeatRecordsEachCycle | code/lsw/main_rad.py:181-187 | n clean repetitions append exactly their n records in order and leave the channel idle and warmed up |
| PollSpec.CleanScriptCloses | code/lsw/main_rad.py:40-130 | one scripted clean cycle appends its record and goes idle |
| PollSpec.CallbackLogsOnlyOnCompletion | code/lsw/main_rad.py:84-88 | a callback on a busy channel either stays busy with the log unchanged, or clears busy by appending one record |
| PollSpec.WhileBusyLogsOnce | code/lsw/main_rad.py:131-132 | while `get_*` waits, the log grows only by the completing record |
| PollSpec.WhileBusyWellFormed | code/lsw/main_rad.py:131-132 | the wait keeps the invariant |
| PollSpec.RoundsRecordEach | code/lsw/main_rad.py:181-187 | each completed repetition adds exactly one record and keeps earlier rows; an unfinished one adds none |
| Poller.Channel.constructor | code/lsw/main_rad.py:20-32 | the globals at import: no address, no expected id, empty log; `busy`, unassigned at import, starts false |
| Poller.Channel.Sleep | code/lsw/main_rad.py:46 | appends the wait to the outbox |
| Poller.Channel.RequestWrite | code/lsw/main_rad.py:47 | sends a register write and returns its fresh id |
| Poller.Channel.RequestRead | code/lsw/main_rad.py:57 | sends a holding-register read and returns its fresh id |
| Poller.Channel.Start | code/lsw/main_rad.py:126-130 | performs `get_*`'s updates, as `PollSpec.Start` |
| Poller.Channel.OnTriggerAck | code/lsw/main_rad.py:40-57 | performs the ack callback in place, as `PollSpec.OnTriggerAck` |
| Poller.Channel.Retrigger | code/lsw/main_rad.py:44-47 | waits and re-triggers |
| Poller.Channel.Arm | code/lsw/main_rad.py:48-57 | loads the dict, slot and queues, warms up once, reads the first slot |
| Poller.Channel.WarmUp | code/lsw/main_rad.py:54-56 | waits 4.096 s and bumps the counter only while it is 0 |
| Poller.Channel.OnReadResponse | code/lsw/main_rad.py:80-99 | performs the read callback in place, as `PollSpec.OnReadResponse` |
| Poller.Channel.Complete | code/lsw/main_rad.py:86-88 | decodes with `ProcessData`, appends the record and clears busy |
| Poller.Channel.Advance | code/lsw/main_rad.py:89-92 | pops both queues and reads the next slot |
| Poller.Channel.Deliver | code/lsw/main_rad.py:40-141 | dispatches an input to its handler, as `PollSpec.Step` |
| Poller.Channel.Acquire | code/lsw/main_rad.py:126-141 | a whole `get_*` call, as `PollSpec.Acquisition` |
| Poller.RunRepetitions | code/lsw/main_rad.py:181-187 | runs both channels once per repetition; each channel's state is `PollSpec.Rounds` of its callbacks, and an early stop means a channel stayed busy |
| Poller.RoundsExtend | code/lsw/main_rad.py:181-187 | one more completed repetition extends the rounds by one acquisition |
| GeoSpec.TruncateToInt | code/lsw/main_geo.py:82 | Python's `int()` on a float: truncation toward zero |
| GeoSpec.Correction | code/lsw/main_geo.py:81-83 | a step command iff the heading error's magnitude exceeds 5°, of `int(error/step_angle*Z)` steps |
| GeoSpec.StepCountBounds | code/lsw/main_geo.py:33-34 | the step count is error·2000/27 truncated toward zero |
| GeoSpec.StepCountOdd | code/lsw/main_geo.py:82 | opposite errors give opposite step counts |
| GeoSpec.CorrectionDirection | code/lsw/main_geo.py:81-83 | a correction is at least 370 steps in the error's direction; exactly ±5° fires none |
| GeoSpec.TenDegreesIs740Steps | code/lsw/main_geo.py:82 | a 10° error commands 740 steps |
| GeoSpec.QuaternionLogsOnce | code/lsw/main_geo.py:72-85 | each sample writes one orientation row and sends a correction exactly when past the threshold |
| GeoSpec.CoordinatesReplaceTarget | code/lsw/main_geo.py:48-69 | with known letters the target becomes the bearing of the solar azimuth (their sum is 0 or 360); as written the join then raises `TypeError` and no row is written; with `str(altitude)` one row in signed degrees is written; an unknown letter raises `KeyError` and changes nothing |
| GeoSpec.FixWait | code/lsw/main_geo.py:56-58 | one 1 s wait per poll without a fix |
| GeoSpec.FirstFix | code/lsw/main_geo.py:56-58 | the first poll with a fix, all earlier ones without |
| GeoSpec.EventLoopSendsOnlyCorrections | code/lsw/main_geo.py:123-124 | the loop keeps a target and only appends corrections |
| GeoSpec.EventLoopLogsEverySample | code/lsw/main_geo.py:123-124 | one orientation row per sample before the signal |
| GeoSpec.EnableAfterFix | code/lsw/main_geo.py:101-113 | the motor is enabled only after a fix and a valid first reading, right after configuration and the fix waits |
| GeoSpec.SessionTrace | code/lsw/main_geo.py:101-133 | past start-up, the command trace is configuration, fix waits, enable, arming, then only corrections, then disarming once signalled, then the shutdown exactly when the session stopped |
| GeoSpec.ShutdownOrder | code/lsw/main_geo.py:125-133 | a stopped session ends with both callbacks off, stop, fast ramping, 0.4 s, disable; a session whose final `cb_coordinates` raised ends right after disarming |
| GeoSpec.StopOnlyAtShutdown | code/lsw/main_geo.py:130-133 | stop and disable appear in the trace iff the session stopped |
| GeoSpec.CorrectionsOnlyInLoop | code/lsw/main_geo.py:121-126 | between arming and disarming there are only corrections |
| GeoSpec.OrientationRowPerSample | code/lsw/main_geo.py:85 | the orientation file has one row per sample before the signal |
| GeoSpec.EventLoopStopsAtSignal | code/lsw/main_geo.py:123-124 | the loop ends on a signal exactly when the events hold one |
| GeoSpec.AltitudeJoinRaises | code/lsw/main_geo.py:50-69 | on 45° N, 5° E at 450 m the call as written raises `TypeError` and writes no row; with `str(altitude)` it writes the row (45, 5, 450) |
| GeoSpec.AsWrittenNeverStops | code/lsw/main_geo.py:125-133 | as written no session is stopped and neither stop nor disable is ever sent; a signalled session that got past start-up fails in the final `cb_coordinates` right after disarming, with the motor still enabled |
| GeoSpec.IntendedShutsDown | code/lsw/main_geo.py:125-133 | with `str(altitude)`, a signalled session with valid final coordinates writes its last position row, then ends with disarming, stop, fast ramping, 0.4 s and disable |
| Geo.GracefulKiller.constructor | code/lsw/main_geo.py:37-42 | the flag starts cleared |
| Geo.GracefulKiller.ExitGracefully | code/lsw/main_geo.py:44-45 | any signal sets the flag |
| Geo.Station.constructor | code/lsw/main_geo.py:25-27 | no target, empty files, no commands, the given row format |
| Geo.Station.Send | code/lsw/main_geo.py:101-107 | appends one command |
| Geo.Station.SetInitialTarget | code/lsw/main_geo.py:110 | sets the target from valid first coordinates, or reports the lookup error with nothing changed |
| Geo.Station.WaitForFix | code/lsw/main_geo.py:56-58 | returns the first fix and has waited 1 s per poll before it |
| Geo.Station.Finish | code/lsw/main_geo.py:125-133 | disarms and calls `cb_coordinates`; ends there with its error if it raises, else stops and powers off, as `GeoSpec.Finish` |
| Geo.Station.OnCoordinates | code/lsw/main_geo.py:63-69 | performs `cb_coordinates` in place and returns what it raises, as `GeoSpec.OnCoordinates` |
| Geo.Station.OnQuaternion | code/lsw/main_geo.py:72-85 | performs `cb_quaternion`, as `GeoSpec.OnQuaternion` |
| Geo.HandleEvents | code/lsw/main_geo.py:123-124 | handles events until the flag is set, as `GeoSpec.EventLoop` for the station's row format |
| Geo.RunStation | code/lsw/main_geo.py:88-135 | `main` with its loops yields exactly `GeoSpec.Run` for the given row format |
| Strings.Split | code/lsw/plot.py:136 | `str.split`: at least one piece, none containing the separator, and joining gives the input back |
| Strings.PrefixBefore | code/lsw/cli.py:62-65 | `split(sep)[0]`: the prefix up to the first occurrence, or all of it |
| Strings.Glob | code/lsw/cli.py:59-60 | exactly the names matching the pattern |
| Strings.DropFirst | code/lsw/cli.py:83 | slicing from 3 drops the first three characters |
| Strings.LastIndexOf | code/lsw/cli.py:62 | the last occurrence of the character, or none |
| Cli.Stem | code/lsw/cli.py:62 | `Path.stem`: a prefix of the name, shorter only by a real last suffix |
| Cli.StemDropsExtension | code/lsw/cli.py:62 | base plus dot plus a dot-free extension has the base as stem |
| Cli.Unprocessed | code/lsw/cli.py:64-65 | a file is kept iff its key is not among the done keys |
| Cli.UnprocessedAppend | code/lsw/cli.py:64-65 | the filter keeps listing order |
| Cli.UnprocessedNoneDone | code/lsw/cli.py:64-65 | with nothing done every file is kept |
| Cli.UnprocessedIdempotent | code/lsw/cli.py:64-65 | filtering twice is filtering once |
| Cli.Dispatch | code/lsw/cli.py:66-69 | Es files get "8798", upwelling-list files "8799", each once, in order |
| Cli.DispatchMembers | code/lsw/cli.py:66-69 | a job carries the id of the list its file came from |
| Cli.CalibrateSelects | code/lsw/cli.py:59-69 | a raw file is calibrated with its id iff it matches its glob and force is set or its key is not yet calibrated |
| Cli.CalibrateEverything | code/lsw/cli.py:61-69 | with force or an empty output directory every globbed file is calibrated |
| Cli.LwNameMissesLuGlob | code/lsw/cli.py:60 | an `Lw...` name never matches `Lu*__RAW.csv` |
| Cli.OnlyEsCalibrated | code/lsw/cli.py:60 | with the radiometer program's file names, only the Es id is ever used |
| Cli.Zip3 | code/lsw/cli.py:86 | positional triples, as many as the shortest list |
| Cli.DrawPairsPositionally | code/lsw/cli.py:79-87 | each plot takes one file from each glob |
| Cli.DrawSkipsPlotted | code/lsw/cli.py:85 | an orientation file whose figure exists is not plotted again without force |
| Cli.FigureListed | code/lsw/cli.py:85 | a drawn figure's stem is its orientation key |
| Cli.SameKeyAcrossFiles | code/lsw/cli.py:83-85 | the Es, Lw and orientation files of one measurement share one draw key |
| Cli.OrientationKeyOf | code/lsw/cli.py:85 | `orientation_<station>_<time>.csv` has key `<station>_<time>` |
| Cli.RadiometryKeyOf | code/lsw/cli.py:83-84 | `XX_<key>__CALIBRATED.csv` has key `<key>` |
| Plot.NormalizeAngle | code/lsw/plot.py:21-25 | agrees with `Utils.NormalizeAngle`; range (-180,180] on [0,360); non-positive below 180; +180 at 180 |
| Plot.FigureStem | code/lsw/plot.py:141 | the stem after its first underscore, empty without one |
| Plot.FigureName | code/lsw/plot.py:141 | the figure stem with `.png` |
| Plot.Title | code/lsw/plot.py:136 | present iff the stem has an underscore; the text between the first and second underscore |
| Plot.OrientationFileNaming | code/lsw/plot.py:136-141 | for `orientation_<station>_<time>` the title is the station and the figure `<station>_<time>` |

## Findings

| source | as written | input that shows it | evidently intended | confidence | as-written member | corrected member |
|---|---|---|---|---|---|---|
| code/lsw/main_geo.py:69 | the float `altitude` (line 50) is handed to `str.join` unconverted, so `cb_coordinates` raises `TypeError` after re-aiming and never writes a position row; the final call at line 127 then ends `main` before the stop and disable of lines 130-133 | any reading with known hemisphere letters, e.g. 45000000 "N", 5000000 "E", altitude 45000 cm | `str(altitude)`, as for the latitude and longitude | high; not executed | GeoSpec.AsWrittenNeverStops | GeoSpec.IntendedShutsDown |

## Left out

- Hardware and I/O are parameters or outputs, not modelled:
  - Tinkerforge devices, `IPConnection` and `set_configuration` (code/lsw/utils.py:63-75);
  - the clock, file writes and CSV headers;
  - `print`. The gateway is a fresh-id counter plus an outbox.
- Threads and processes are modelled sequentially:
  - the two `get_*` threads (their channels share no state);
  - the race where a callback fires before `get_*` stores the expected id;
  - `multiprocessing` and `start` in `cli.py`.
- Numerics from libraries the model cannot see:
  - pvlib's solar position and scipy's rotations and Euler angles are the functions of `GeoSpec.Numerics`;
  - the reals of the model stand for Python floats;
  - `struct.unpack("!f")` is kept as the 32-bit pattern it reinterprets.
- Utils.LnLe2LL: division is exact on reals; float rounding is not modelled.
- Gateway request ids are unbounded naturals; the device's 8-bit id wrap is not modelled.
- The one-second sleeps of `main_geo.py`'s event loop and of `get_*`'s `while busy` wait (main_rad.py:131-132) are not emitted as waits. Events that arrive after the signal, between disarming and the final read, are not modelled.
- Geo.HandleEvents, GeoSpec.EventLoop: a callback that raises (every `cb_coordinates` as written) is assumed to lose only its own call, with the Tinkerforge binding's callback thread going on to deliver later coordinates and quaternion events. If that thread stopped instead, no event after the first coordinates callback would be handled; the model does not capture that.
- PollSpec.WhileBusy, PollSpec.Acquisition, PollSpec.Rounds, Poller.Channel.Acquire: callbacks that reach an idle channel, and a round's callbacks left over once `busy` clears, are not delivered. The source's callbacks never test `busy`, so a late response would still act. The model assumes the gateway answers each request exactly once, so no callback reaches an idle channel; "one record per repetition" (`PollSpec.RoundsRecordEach`, `PollSpec.RepeatRecordsEachCycle`) rests on that.
- The gateway's exception code is a signed byte (negative for a timeout); the model takes any integer, and only whether it is 0 matters to the callbacks.
- A callback that raises (a failed catalogue lookup or `pop()`, or a record that does not decode) is modelled as ending with the updates made so far. The invariant shows the first two unreachable.
- Poller.RunRepetitions: where the source would wait forever for a channel that stays busy, the model stops after that repetition.
- `sorted()` in `draw`: listings are taken as already sorted.
- `pathlib` glob details (hidden files, case) are not modelled; a listing is a sequence of names.
- `calibrate.py`, `gps_time.py`, the plotting and data loading of `plot.py`, and the `start`, `shutdown` and `visual` commands are not part of this model.
