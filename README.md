# HTB/LTB co-simulation synchronisation core, in Dafny

This project models the synchronisation and control core of a hardware/load
test bench (HTB) and a large-system transient simulator (LTB) run in
lock-step through two small files:

- **The channel.** `data_io` in code/core.py, and `data_read`/`data_write`
  in ltb/core_io.py.
  - A read splits the read file on whitespace and converts exactly three
    base-10 integers `k p q`.
  - It decodes the powers as `raw / 1e4 - 2`.
  - It falls back to the counter `-4` and the defaults when the file is
    missing or malformed.
  - A write emits one CSV row of the values times `1e4`.
- **The AGC controller `ACEObj`.** A class whose `update` integrates the area
  control error and sets `Raw = -(Kp*ACEc + Ki*Integral)`.
- **The counter handshake and step loop**, in two variants:
  - `run()` of code/core.py. It waits for counter 11, then per step waits at
    most `itermax_io + 1` reads for counter `kr0 + 1`. It then writes the bus
    voltage and frequency, injects the read power, sets the AGC setpoint
    every `intv_agc`, simulates one step, updates the controller, records a
    row of the preallocated table, and restarts the counter base at 10 after
    199. Finally it saves the counted rows with their `tall` column.
  - The LTB script ltb/core_ltb.py. It also waits for counter 11, but then
    waits without bound for each next counter. Per step it writes the bus
    voltage and frequency, injects the read power, simulates one step,
    counts the step (as failed when `tc3 - tf_htb > t_step`), records the
    eight `cs_col` columns in its table `cs_num`, and when the read counter
    is 199 resets it to 10 and increments `ks`. It sets no AGC setpoint, has no
    controller and never checks the simulator's exit code. It keeps the
    last read powers as the defaults in the shared dictionary `io_config`,
    and finally saves the whole table.

The model has these files:

| file | module | contents |
|---|---|---|
| wire.dfy | `Wire` | `str.split()`, `int(_, 10)`, the three-token parse and its inverse `Render` |
| dataio.dfy | `DataIo` | `data_io` |
| coreio.dfy | `CoreIo` | `io_config`, `data_read`, `data_write` |
| ace.dfy | `Ace` | `ACEObj` as a class, with the `Replay` recurrence that specifies it |
| cosim.dfy | `CoSim` | the configuration, `status`, and both read loops of `run()`, each a loop method proved against a declarative specification function |
| mainloop.dfy | `MainLoop` | the main loop of `run()` as methods over a `Progress` state, an `AceObj` and an `array2<real>` table, with its loop invariant and the lemmas that keep it |
| ltbscript.dfy | `LtbScript` | ltb/core_ltb.py as methods with its own invariant and table |

The environment is modelled as oracles:

- **The read file.** A finite sequence `files: seq<FileState>`, one entry per
  read, each `Missing` or `Present(text)`. When the sequence is used up, the
  run ends as `Starved` (`ReadsRanOut` in the script). This is the model's
  horizon: the source would keep polling.
- **The write file.** A `Sink` per step: it opens, its directory is missing
  (FileNotFoundError), or another OSError.
- **The simulator and the clock.** `env: nat -> StepEnv` gives each step its
  bus frequency and voltage, exit code, ACE measurement, and read, write and
  simulation durations. The script uses `nat -> LtbEnv`, which also gives
  whether the step counts as failed.

## Model

| member | source | states |
|---|---|---|
| Wire.TokenLengthMaximal | code/core.py:80 | the token measured by `TokenLength` is a maximal run of non-whitespace characters |
| Wire.SplitTokens | code/core.py:80 | every piece of `str.split()` is non-empty and holds no whitespace |
| Wire.SplitJoin | code/core.py:80 | splitting tokens joined by single spaces gives back the tokens |
| Wire.SplitSkipsLeadingSpace | code/core.py:80 | leading whitespace does not change the tokens |
| Wire.ParseIntAccepts | code/core.py:80 | `int(t, 10)` accepts only an optional sign followed by digits and underscores; an unsigned value is never negative and a `-` value never positive |
| Wire.ForeignCharRefused | code/core.py:80 | a token with a hexadecimal letter, a decimal point or any other foreign character is a ValueError |
| Wire.ShowParses | code/core.py:80 | `int(str(n), 10) == n` for every integer |
| Wire.DigitsArePart | code/core.py:80 | the decimal digits of a natural number form a digit group that `int` accepts |
| Wire.ShowIsToken | code/core.py:80 | `str(n)` holds no whitespace, so it is a single token |
| Wire.ParseAllEach | code/core.py:80 | the list comprehension succeeds iff every token converts, and then holds the converted tokens in order |
| Wire.ParseTripleTokens | code/core.py:80 | a text is read iff it splits into exactly three tokens that each convert, and the triple holds them in order |
| Wire.RenderParses | code/core.py:80 | three integers written space-separated are read back unchanged |
| Wire.FirstIndexFinds | code/core.py:296-301 | the first matching read found by the wait specifications is the first one: every earlier counter differs |
| DataIo.DataIoRead | code/core.py:74-110 | `exit_code` is True iff the file exists and holds three base-10 integers; then the result is `[k, p/1e4 - 2, q/1e4 - 2]` with `k` unconverted and independent of `pdef`, `qdef`; otherwise it is `[-4, pdef, qdef]` as passed |
| DataIo.ReadRendered | code/core.py:76-91 | a file holding three written integers reads as the counter and both powers `raw/1e4 - 2`, whatever the defaults |
| DataIo.DataIoWrite | code/core.py:92-110 | a write raises iff `open` fails with an OSError other than FileNotFoundError; otherwise `exit_code` is True, including after a caught FileNotFoundError; a row is written iff the file opens, and it holds each datum times `k_htb` |
| DataIo.WrittenRowDecodes | code/core.py:98 | the row holds one value per datum, in order, each the datum times `k_htb` |
| DataIo.WrittenPairReadsBackShifted | code/core.py:82-98 | a written pair `[a, b]` whose scaled values come back as the integers of a read file decodes as `[a - 2, b - 2]`, never as itself: the write has no bias |
| CoreIo.DataRead | ltb/core_io.py:10-56 | `io_flag` iff the file exists and holds three base-10 integers; then the result is `[k, p/htb_s + htb_b, q/htb_s + htb_b]` with the raw text; otherwise `[k_df, p_df, q_df]` of `io_config` at call time, with the matching `'ERROR: ...'` text; the `config` argument is ignored |
| CoreIo.ReadRendered | ltb/core_io.py:36-46 | with the module's `io_config`, three written integers read back as the counter and `raw/1e4 - 2` for both powers |
| CoreIo.DataWrite | ltb/core_io.py:59-88 | `data_write` returns True iff `open` succeeds, every error of `open` propagates, and the row holds each datum times `htb_s` |
| CoreIo.WroteRowDecodes | ltb/core_io.py:83 | each written value divided by `htb_s` is the datum at the same position |
| CoreIo.WrittenPairReadsBackShifted | ltb/core_io.py:42-83 | with the module's `io_config`, a written pair `[a, b]` whose scaled values come back as the integers of a read file reads as `[a - 2, b - 2]`, never as itself |
| Ace.ReplayAppend | code/core.py:144-155 | replaying one more measurement is one more `update` |
| Ace.ReplayClosedForm | code/core.py:139-154 | after updates `a1..an` the gains are unchanged, `Integral == I0 + Σai`, and `Raw` is `-(Ki*I0)` before any update and `-(Kp*an + Ki*Integral)` after |
| Ace.OutputAfterEachUpdate | code/core.py:144-154 | the i-th update outputs `-(Kp*a_i + Ki*(I0 + a_1 + ... + a_i))` |
| Ace.AceObj.constructor | code/core.py:117-142 | a new object has the given gains and integral and `Raw == -(Ki*Integral)`, with no measurement applied |
| Ace.AceObj.Update | code/core.py:144-155 | `update(a)` adds `a` to `Integral`, then sets `Raw` from the new integral, keeps the gains, returns True, and the object stays the replay of all its measurements |
| CoSim.AttemptCounter | code/core.py:298 | one read attempt yields the file's counter, or `-4`; its `p` and `q` are numbers iff the read succeeded |
| CoSim.AwaitInit | code/core.py:296-301 | the init loop stops at the first read whose counter is 11, or after exactly one read in test mode, and leaves that read's `p`, `q`; it runs out only when no read carries 11 (no read at all, in test mode) |
| CoSim.InitWaitEnds | code/core.py:296-301 | a loop that stopped after `n` reads, the last one carrying 11 and none before, is the specification's outcome |
| CoSim.AwaitStep | code/core.py:310-320 | a step's read loop stops at the first read carrying `kr0 + 1`, or after `itermax_io + 1` attempts, or after one attempt in test mode with the counter forced; `p`, `q`, `pdef`, `qdef` are the last attempt's values |
| CoSim.StepWaitStarves | code/core.py:310-318 | the reads run out exactly when fewer reads remain than the loop needs |
| CoSim.StepWaitEnds | code/core.py:310-320 | a loop that stopped after `n` attempts is the specification's outcome with the last attempt's values |
| CoSim.StepWaitCount | code/core.py:313 | the number of attempts is the position of the first read carrying `kr0 + 1`, capped at `itermax_io + 1` |
| CoSim.StepWaitBounded | code/core.py:313-320 | between 1 and `itermax_io + 1` attempts, exactly one in test mode; the loop ends on `kr0 + 1` unless the budget is used up; every earlier attempt saw another counter; `kr`, `p`, `q` are the last attempt's and `pdef == p`, `qdef == q`; and it runs out iff the reads are fewer than that count |
| CoSim.ExhaustedWaitFallsBackToNone | code/core.py:314-320 | with 21 missing files in a row, the loop's fallback after exhaustion is `None`, not the last good values |
| CoSim.AwaitStepFixed | code/core.py:313-320 | with the defaults passed to `data_io`, the fallback is the most recent successfully read value, and it is a number whenever the defaults were |
| MainLoop.EndTimeClosed | code/core.py:342 | adding `t_step` to `tf` `k` times gives `ti + k * t_step` |
| MainLoop.WriteRow | code/core.py:362 | `cosim_data[i, :] = row` sets row `i` and leaves every other cell unchanged |
| MainLoop.CounterStep | code/core.py:366-368 | in test mode, after step `k + 1` the counter base is `10 + (k + 2) % 189`, wrap at 199 included |
| MainLoop.ChainExtends | code/core.py:310-323 | a read loop run from where the previous one stopped extends the chain of read loops |
| MainLoop.ReadStep | code/core.py:310-324 | a step's read loop uses at least one and at most the remaining reads, extends the chain, keeps `pdef == p`, `qdef == q`, takes one read with counter `kr0 + 1` in test mode, and yields numbers in a smooth test run |
| MainLoop.ReadValues | code/core.py:310-320 | the read loop's bounds and values from the current base |
| MainLoop.ReadChain | code/core.py:310-323 | the logged read loops still chain after one more |
| MainLoop.StarvedFinal | code/core.py:313-318 | running out of reads in a read loop leaves the logs as they were, and the loop's specification is starved |
| MainLoop.AbortFinal | code/core.py:333-337 | a raising write, or a `None` power reaching `load_switch * p`, ends the run after the step's read and write, with no injection and no count |
| MainLoop.SimFailedFinal | code/core.py:336-350 | a non-zero exit code ends the loop after the injection and AGC setpoint, but before `ACE.update`, the `iter_fail` check, `iter_total += 1` and the row write |
| MainLoop.InjectStep | code/core.py:333-345 | the write, the injection `load_switch * p`, `load_switch * q` and, on an AGC step, the setpoint extend their logs |
| MainLoop.LoadsExtend | code/core.py:336-337 | the injection of a step is its read power switched by `load_switch` |
| MainLoop.PauxStep | code/core.py:344-345 | the setpoint is appended iff `k` is a multiple of the AGC interval, and it is `AGC_control` times the controller output after all earlier steps |
| MainLoop.SentExtends | code/core.py:330-333 | each step writes `[v_bus, f_bus]` |
| MainLoop.SimsExtend | code/core.py:348-354 | a step that simulated without error is counted, and counted as failed iff it took more than `2 * t_step` |
| MainLoop.StepCounters | code/core.py:316-317 | in test mode the forced counter of the `n`-th read loop continues the sequence `11 + (i + 1) % 189` |
| MainLoop.SteppedCounts | code/core.py:324 | a completed step adds one to `k` and logs one more read loop |
| MainLoop.StepHead | code/core.py:313-368 | after a completed step `k`, `iter_total`, `kr0` and `kr` follow the wrap rule, and the simulated end time is `ti + k * t_step` |
| MainLoop.StepLogs | code/core.py:313-362 | after a completed step its read loop, write, injection, setpoint and count are logged |
| MainLoop.StepInv | code/core.py:303-368 | a completed step re-establishes the loop invariant |
| MainLoop.FinishedFinal | code/core.py:303 | the loop condition fails only after all `rows` steps |
| MainLoop.RecordedRow | code/core.py:357-362 | the row `[status[col] for col in scols]` after a step is the step's counter, step number, measurements, read powers and defaults, durations and end time |
| MainLoop.RecordRow | code/core.py:362 | the table holds the rows of the first `k` steps after step `k` |
| MainLoop.UpdateAndRecord | code/core.py:352-362 | `ACE.update` with the step's measurement, then the row write |
| MainLoop.RunStep | code/core.py:304-372 | one pass of the loop body either re-establishes the invariant with `k` one higher, the controller replaying every step and the table holding every step, or leaves the loop with the final logs |
| MainLoop.SendStep | code/core.py:313-337 | after the read loop: the write, then the end of the run on a raising write or a `None` power, else the rest of the step |
| MainLoop.SimulateStep | code/core.py:336-368 | the step ends the loop as `SimFailed` on a non-zero exit code, otherwise it completes |
| MainLoop.CompleteStep | code/core.py:351-368 | a completed step updates the controller and records its row, and the state is the stepped state |
| MainLoop.SavedRows | code/core.py:377-384 | the saved table is the first `n` rows of `cosim_data`, each with `tall = tw + tr + tsim` appended |
| MainLoop.SavedRecorded | code/core.py:377-384 | the saved rows are the recorded rows of the counted steps |
| MainLoop.InitFacts | code/core.py:296-301 | after the init loop the counter is 11, at least one read was used, and exactly one in test mode |
| MainLoop.InitInv | code/core.py:296-303 | the loop invariant holds at the first step |
| MainLoop.Loop | code/core.py:303-372 | `while status['k'] < rows` ends in a final state whose first `iter_total` table rows are recorded |
| MainLoop.Steps | code/core.py:303-377 | the main loop and the rows it saves: none when an exception left `run` |
| MainLoop.Run | code/core.py:262-388 | the whole handshake and loop: the init wait's outcome; one chained read loop, one write, one injection per step that got past the write, setpoints at every AGC step, `iter_total` the number of steps simulated without error and `iter_fail` the late ones; why the run ended; the saved table, and that a smooth test run completes all steps |
| MainLoop.Proceed | code/core.py:303-388 | everything after the init wait, with the same guarantees |
| MainLoop.OutputLogs | code/core.py:374-388 | the logs `run` reports are those of the state its loop ended in |
| MainLoop.OutputEnd | code/core.py:374-388 | how the run ended is read off that state |
| MainLoop.SavedTimes | code/core.py:342-384 | the saved row of step `i + 1` holds `k == i + 1`, `tf == ti + (i + 1) * t_step` and `tall` |
| MainLoop.TestModeCounters | code/core.py:296-368 | in test mode the saved counter column runs 12, 13, ..., 199, 11, 12, ... |
| LtbScript.AwaitCounter | ltb/core_ltb.py:110-126 | a read loop stops at the first read carrying its target, and `io_config` then holds as defaults the `p`, `q` of the reads in order |
| LtbScript.LastReadDefault | ltb/core_ltb.py:138-140 | when no read succeeded, the defaults stay as they were |
| LtbScript.LastReadIsLastSuccess | ltb/core_ltb.py:138-140 | otherwise the defaults are the decoded values of the most recent successful read |
| LtbScript.WaitStopsOnTarget | ltb/core_ltb.py:138-141 | the unbounded wait ends only on a successful read carrying the target, never on a failed one (`-4`), with that read's decoded powers; it runs out iff no read carries the target |
| LtbScript.WaitIgnoresDefaults | ltb/core_ltb.py:139-140 | the outcome of a wait does not depend on the defaults stored in `io_config` |
| LtbScript.Target | ltb/core_ltb.py:144-188 | the counter a step waits for lies in 11..199 |
| LtbScript.CountersAdvance | ltb/core_ltb.py:186-190 | the next target is one more than the last, except that after 199 the base drops to 10, and `ks` grows by one exactly then |
| LtbScript.ChainExtends | ltb/core_ltb.py:136-144 | a read loop run from where the previous one stopped extends the chain |
| LtbScript.ChainStep | ltb/core_ltb.py:136-144 | a step's completed read loop consumes at least one read |
| LtbScript.ReadFollowsStep | ltb/core_ltb.py:138-140 | each step's wait behaves as its specification from counter `Target(s) - 1` |
| LtbScript.ReadStep | ltb/core_ltb.py:136-146 | the step's read loop follows its specification and extends the chain |
| LtbScript.StepHead | ltb/core_ltb.py:144-190 | after a step `k` and `iter_total` are one higher, `kr0` and `kr` follow the wrap rule, `ks` counts the wraps, and `io_config` holds the step's powers |
| LtbScript.StepLogs | ltb/core_ltb.py:155-180 | the write, the injection and the failure count of a completed step are logged |
| LtbScript.StepSentLoads | ltb/core_ltb.py:155-167 | each step writes `[v_bus, f_send]` and injects its read power switched by `load_switch` |
| LtbScript.RecordRow | ltb/core_ltb.py:183-184 | `cs_num[k-1, :]` receives the step's `cs_stat` columns; later rows stay `-1` |
| LtbScript.RanOutFinal | ltb/core_ltb.py:138-141 | running out of reads leaves the logs as they were |
| LtbScript.WriteFailedFinal | ltb/core_ltb.py:155-161 | a raising `data_write` ends the script after the step's read, with no injection and no count |
| LtbScript.ScriptStep | ltb/core_ltb.py:129-192 | one pass of the loop body re-establishes the invariant with `k` one higher, or leaves the loop with the final logs |
| LtbScript.StepRead | ltb/core_ltb.py:136-146 | the step's read loop follows its specification and extends the chain |
| LtbScript.SendStep | ltb/core_ltb.py:155-192 | the write, then either the end of the script or the rest of the step |
| LtbScript.CompleteStep | ltb/core_ltb.py:162-192 | a completed step records its row and advances the counters |
| LtbScript.StepInv | ltb/core_ltb.py:129-192 | a completed step re-establishes the loop invariant |
| LtbScript.Snapshot | ltb/core_ltb.py:198 | `pd.DataFrame(data=cs_num)` holds every row of the table |
| LtbScript.SavedRecorded | ltb/core_ltb.py:183-198 | the saved table holds the rows of the counted steps, and every other row is all `-1` |
| LtbScript.StepSpecReading | ltb/core_ltb.py:138-141 | the read loop of step `s` ends on a readable read carrying `Target(s)` and takes that read's decoded powers |
| LtbScript.StepReading | ltb/core_ltb.py:136-146 | the `i`-th read loop of the script consumed at least one read and stopped on the first one after its start that carried its counter |
| LtbScript.SavedReadings | ltb/core_ltb.py:183-198 | row `i` of the saved table holds `ks`, the counter, and the decoded powers of the read that ended step `i` |
| LtbScript.InitReads | ltb/core_ltb.py:110-126 | after the init loop `io_config` holds the powers the loop returned |
| LtbScript.StartedInv | ltb/core_ltb.py:110-129 | the loop invariant holds at the first step |
| LtbScript.Steps | ltb/core_ltb.py:129-192 | `while cs_stat['k'] < rows` ends in a final state whose first `iter_total` table rows are recorded and the rest unwritten |
| LtbScript.Proceed | ltb/core_ltb.py:127-198 | the script after its init loop: the main loop and the saved table |
| LtbScript.RunScript | ltb/core_ltb.py:74-198 | the whole script: the init wait; one chained read loop and one write per step; an injection and a count for every step that wrote; `iter_fail` the failed steps; why it ended; the saved table |

## Left out

- The ANDES simulator (loading, power flow, `TDS.run`, `get`/`set`, `exit_code`, `ACEc`) is a foreign library. It is the per-step oracle `env`.
- Wall-clock time is not modelled. `time.time()` differences are the per-step durations of `env`. The LTB script's failure test `tc3 - tf_htb > t_step` mixes an epoch time with simulated time, so it is an oracle boolean.
- Files, `csv`, `pandas`, `logging` and output file naming are left out. Reads are a sequence of file states. A write is the row handed to the CSV writer. The saved table is a sequence of rows.
- Floating-point rounding is not modelled: the arithmetic is exact `real`. The float test `k*t_step % intv_agc == 0` becomes `k % agcSteps == 0`. The `np.ceil` of the row count becomes the integer `steps`, with `ti = 1` so that the table has one row per step.
- `int(_, 10)` is modelled for ASCII digits only. Python also accepts other Unicode decimal digits (`int('٣٤', 10) == 34`), which `Wire.ParseInt` refuses, so for such a token the model takes the ValueError fallback to the defaults where the source reads a number.
- DataIo.DataIoRead, CoreIo.DataRead: a token of 309 or more digits is accepted by `int(i, 10)`, but converting it to a float in `p / k_htb` (code/core.py:82) or `p / io_config['htb_s']` (ltb/core_io.py:42) raises OverflowError, which neither reader catches, so it leaves `run` or the script; the model instead returns a successful reading with the exact real value. Also not modelled: on Python 3.11 and later `int()` refuses strings of more than 4300 digits with a ValueError, which falls back to the defaults.
- `KeyboardInterrupt` (code/core.py:370-372) is an asynchronous signal.
- A finite read sequence replaces waiting forever. Running out of reads ends a run as `Starved` or `ReadsRanOut`, an ending the source does not have.
- The offsets `p0`, `q0` of the injection are constants of the simulator. The model logs `load_switch * p` and `load_switch * q` only.
- OSErrors other than FileNotFoundError on read (code/core.py:77; ltb/core_io.py:37) propagate in the source. They are not modelled: a read file is either missing or present.
- Default `status` argument: code/core.py:159 binds the module-level dictionary, which the init loop and the first read loop mutate before line 357 rebinds `status` to a copy. A second call of `run` in the same process would start from those values. Each modelled run starts from the initial values.
- `kr0` at the init loop: code/core.py:301 assigns it only inside the init loop. The init loop always runs at least once from `kr = 0`, so the `NameError` the source risks when `status['kr']` is already 11 does not arise, and it is not modelled.
- `run` takes `tf` and reads `rows` twice (lines 262 and 292). The model uses one step count `steps` for both, which holds when `ti = 1`.
- ltb/core_ltb.py:13 imports `cs_stat`, `cs_config` and `cs_col` from ltb/core_io.py, which does not define them. The model uses the values of code/core_pre.py:44-51.
- ltb/data/ehtb.py is not part of this model. It writes its counters in hexadecimal, which the base-10 readers refuse for most counters (`Wire.ForeignCharRefused`).
- The LTB script's `a_ltb` and `kb` columns keep their initial values 0 and -11, since the script never updates them.
- Where the source's own docstrings and comments disagree with its code, the model follows the code:
  - the `data_io` docstring describes the reading as `p / k_htb + b_htb` (code/core.py:39-41), but the write side scales by `1e4` with no bias (code/core.py:98, ltb/core_io.py:83), so a written value does not read back as itself (`DataIo.WrittenPairReadsBackShifted`, `CoreIo.WrittenPairReadsBackShifted`);
  - the docstring says the write sends `[freq, volt]` (code/core.py:34) and the log line formats `freq=%d` from `data[0]` (code/core.py:100), but the call passes `[v_bus, f_bus]` (code/core.py:332): voltage first, then frequency;
  - the docstring (code/core.py:36) and the inline comments (code/core.py:80, ltb/core_io.py:40) say the read converts "HEX to DEC", but both readers call `int(i, 10)`, which refuses hexadecimal letters (`Wire.ForeignCharRefused`).
- MainLoop.Run: `iter_fail` is stated as the count of late steps, with lateness taken from the oracle durations and not from clock readings.

## Findings

| source | as written | input that shows it | evidently intended | confidence | as-written member | corrected member |
|---|---|---|---|---|---|---|
| code/core.py:314-320 | each attempt calls `data_io(file=read_path)` without `pdef`/`qdef`, so a failed read returns `None` for `p` and `q`, and line 315 copies that `None` into `pdef`/`qdef`; when the last attempt of an exhausted wait failed, line 320 falls back to `None` and `load_switch * None` at line 336 raises TypeError | 21 missing read files in a row with `itermax_io = 20` | the fallback on exhaustion is the last successfully read `p`, `q` (the comments at lines 50-52, 315 and 320), obtained by passing `pdef=status['pdef'], qdef=status['qdef']` to `data_io` | high (not executed) | CoSim.ExhaustedWaitFallsBackToNone | CoSim.AwaitStepFixed |

The main loop in `MainLoop` keeps the read loop as written, so a run that would raise the TypeError ends there as `NoneInjected` (`MainLoop.Run` states when). `CoSim.AwaitStepFixed` is the read loop as intended.
