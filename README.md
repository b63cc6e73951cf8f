# ONICS supervisor, modelled in Dafny

ONICS (Optical Navigation and Interference Control System) is a supervisor
program for a drone's companion computer. It starts three external workers:

- the MAVLink relay `mavproxy.py`;
- the T265 tracking-camera bridge;
- the D4xx depth-camera bridge.

Each camera bridge runs only while its RealSense device is detected. The
supervisor restarts any worker whose thread has ended. This project models
the supervisor's decision logic and proves properties of it:

- **Text** (`text.dfy`): Python's substring test `p in s` and `str.strip()`.
- **Prober** (`prober.dfy`): `is_device_connected` scans the output lines of
  `rs-enumerate-devices` for a device prefix. `enumerate_devices` collects
  the stripped lines that name a `T265` or `D4` device and prints a report.
- **Config** (`config.dfy`): the command-line switches and the two enable
  flags `t265_enabled` and `d4xx_enabled`, which both default to true. It
  also covers the flag handling of the entry point.
- **Workers** (`workers.dfy`): the workers' command lines, plus a
  specification of the camera loops `run_t265` and `run_d4xx`. The loops are
  described as a function of what their probes and launches observe.
- **Restart** (`restart.dfy`): which threads start-up creates and which
  workers one pass of the monitoring loop respawns. It covers the loop as
  written and a corrected loop that stores the new handle back (see
  Findings).
- **Onics** (`onics.dfy`): class `Supervisor`. It holds the module-level
  state: the two flags, the handles in `thread1`–`thread3`, every thread
  created, and the shared log. It also keeps a field `dead`, the threads a
  monitoring pass has found not alive. The program keeps no such record;
  the field is bookkeeping of the model, used to state which later liveness
  snapshots are consistent. Its methods carry out the entry point, the
  worker loops and one monitoring pass. Each method is proved against the
  specifications above.

The model takes these as inputs:

- the enumeration tool's output, as a sequence of lines;
- whether each launched script exited with an error;
- which threads are alive when a monitoring pass runs.

Threads are numbered in creation order. A worker loop is driven by a finite
sequence of attempts, one per probe.

Two points where the code departs from its evident intent, and the model
follows the code:

- The `except CalledProcessError` branches (ONICS.py:39-41, 56-57) look
  meant to turn a failed probe into false and a logged error. They are never
  taken, because `subprocess.run` is called without `check=True`. A missing
  tool raises an uncaught `FileNotFoundError`. The model therefore has no
  "probe failed" path.
- The restart loop evidently means to store the new handle back. It does
  not; see Findings.

## Model

| member | source | states |
|---|---|---|
| Text.Contains | ONICS.py:36 | `p in s` holds exactly when `p` occurs in `s` at some index |
| Text.StripIsTrimmedSlice | ONICS.py:54 | `line.strip()` is a contiguous slice of the line, and everything cut from either end is whitespace |
| Text.Strip | ONICS.py:54 | `line.strip()` neither starts nor ends with whitespace |
| Text.StripKeepsSolidOccurrence | ONICS.py:53-54 | a prefix that contains no whitespace and occurs in a line still occurs in the stripped line |
| Prober.IsDeviceConnected | ONICS.py:31-38 | returns true exactly when some line contains the prefix; the scan stops at the first such line and no earlier line matched; empty output gives false |
| Prober.Relevant | ONICS.py:51-55 | the collection loop keeps at most one device per output line |
| Prober.MatchIndicesAreTheMatches | ONICS.py:51-55 | the reference selection lists, in strictly increasing order, exactly the positions of the lines that contain `T265` or `D4` |
| Prober.RelevantIsOrderedSelection | ONICS.py:51-55 | the collected devices are exactly the matching lines, each stripped, in output order and each once; so there are never more devices than lines |
| Prober.RelevantDevicesNameAClass | ONICS.py:51-54 | every collected device still contains `T265` or `D4` after stripping |
| Prober.StrippedLineMatches | ONICS.py:53-54 | a line that matches a device prefix still matches it once stripped |
| Prober.Report | ONICS.py:59-64 | the "No relevant RealSense devices detected." message is printed exactly when nothing was collected; otherwise the "Detected RealSense Devices:" header is printed, followed by the devices in collected order |
| Prober.EnumerateDevices | ONICS.py:44-64 | the nested loop, with its `break`, prints the report of the reference selection of the lines |
| Config.ResolveFlags | ONICS.py:130-137 | `--sik-only` clears both flags; otherwise each `--disable-…` switch clears only its own flag; no flag is ever set |
| Config.StartupFlags | ONICS.py:130-137 | starting from the defaults (true, true), a camera is enabled exactly when neither `--sik-only` nor its own switch was given |
| Workers.Command | ONICS.py:69-98 | the relay reads the flight controller at `127.0.0.1:14550` and 921600 baud and forwards, each after `--out`, to a UDP endpoint for every camera bridge and to the SiK radio; each camera bridge is `python3` running its own script (`t265_precland_apriltags.py` or `d4xx_to_mavlink.py`) with `--connect=` its own endpoint |
| Workers.Endpoint | ONICS.py:84-98 | the T265 bridge uses `127.0.0.1:14540` and the D4xx bridge `127.0.0.1:14560`, so the two differ |
| Workers.Disabled | ONICS.py:101-104 | a camera clearing its flag clears only its own flag and sets none |
| Workers.LaunchesIsLeadingRun | ONICS.py:93-100 | the loop launches once for each leading probe that finds the device: the count is `n` exactly when probes `0..n-1` were present and probe `n`, if any, was not |
| Workers.Run | ONICS.py:93-104 | a loop never re-enables its flag; it launches no more often than it probes, and probes no more often than there are attempts; a disabled loop does nothing |
| Workers.RunStopsAtMissing | ONICS.py:101-104 | the first probe that misses the device ends the loop with the flag cleared, after the launches before it and a single warning |
| Workers.RunAllPresent | ONICS.py:95-100 | while every probe finds the device, the loop launches each time and the flag stays set |
| Workers.DisablesOnlyOnMissingDevice | ONICS.py:79-90 | a camera loop clears its flag exactly when it logs the missing-device warning; that warning is its last event, and its last probe is the one that missed the device |
| Workers.ScriptOutcomeIrrelevant | ONICS.py:96-100 | how the scripts exited does not change the flag or the number of probes and launches |
| Restart.Eligible | ONICS.py:160-164 | each pass lists the relay always, each camera exactly while its flag is set, and each worker at most once |
| Restart.Launch | ONICS.py:147-156 | start-up creates the relay thread, then one for each enabled camera, in that order, none yet found ended, and every recorded handle names a thread of its own worker |
| Restart.LaunchStartsEligible | ONICS.py:147-156 | start-up creates one thread per eligible worker, in list order, each recorded under its own name |
| Restart.RespawnMembers | ONICS.py:165-168 | the respawned workers are exactly the visited ones whose recorded thread is not alive |
| Restart.Respawned | ONICS.py:159-168 | one pass respawns the relay exactly when its recorded thread is not alive, and a camera exactly when its flag is set and its recorded thread is not alive |
| Restart.Step | ONICS.py:165-168 | visiting a worker creates a thread only if the recorded one is not alive, and leaves the other workers' handles alone; as written, no handle changes |
| Restart.Visit | ONICS.py:165-168 | a pass keeps the handles valid; as written it changes no handle; every thread it adds to the known-ended set is one that was not alive |
| Restart.VisitSpawnsRespawn | ONICS.py:165-168 | the threads a pass creates are the respawned workers, in visiting order |
| Restart.VisitEnds | ONICS.py:165-166 | the threads found ended in a pass are exactly the recorded threads of the visited workers that are not alive |
| Restart.EndedMembers | ONICS.py:165-166 | a thread counts as ended in a pass exactly when it is not alive and is the recorded thread of a visited worker |
| Restart.VisitRebinds | ONICS.py:165-168 | with the handle stored back, the `k`-th respawned worker is recorded with the `k`-th new thread, and every other worker keeps its handle |
| Restart.CycleAsWritten | ONICS.py:159-168 | one pass as written appends the respawned workers' new threads and records none of them: `thread1`–`thread3` are unchanged |
| Restart.DuplicateRunsAsWritten | ONICS.py:165-168 | as written, with only the relay enabled, two passes start two more relay threads, and both are alive in a snapshot consistent with what has been seen |
| Restart.RelayRestartedAsWritten | ONICS.py:165-168 | with only the relay enabled and its recorded thread not alive, a pass starts one relay thread and changes no handle |
| Restart.CycleRebinding | ONICS.py:159-168 | the corrected pass creates a thread for each respawned worker, as the written one does; it finds ended exactly the recorded threads that are not alive; it records the `k`-th respawned worker with the `k`-th new thread and leaves every other handle as it was; and it keeps every thread either ended or the recorded one |
| Restart.RebindingPass | ONICS.py:165-168 | the corrected loop over the watch list computes the corrected pass and the workers it respawns |
| Restart.ReplacedGivesOneLiveRun | ONICS.py:165-168 | if every thread either has ended or is the recorded one, no worker has two live threads |
| Restart.RebindingKeepsOneLiveRun | ONICS.py:165-168 | with the handle stored back, a pass from a state where every thread has ended or is the recorded one leaves such a state again, and no later consistent snapshot shows two live threads of one worker |
| Restart.Passes | ONICS.py:158-168 | repeated corrected passes keep the handles valid, never drop a thread, and keep every thread either ended or the recorded one |
| Restart.RebindingNeverDuplicates | ONICS.py:147-168 | with the handle stored back, after start-up and any number of passes, no snapshot consistent with what has been seen shows two live threads of one worker |
| Restart.AsWrittenLosesReplaced | ONICS.py:165-168 | as written, one relay-only pass that restarts the relay leaves thread 1 running while `thread1` still names thread 0, so the property the corrected pass keeps is already lost |
| Restart.FirstPassKeepsOldHandle | ONICS.py:165-168 | as written, a relay-only pass that finds thread 0 not alive starts thread 1 but keeps thread 0 as the recorded handle, so thread 1 is neither ended nor recorded |
| Restart.NoDuplicateWhenRebinding | ONICS.py:165-168 | the two passes of the duplicate example, corrected, start only one new relay thread |
| Restart.FirstPassRestartsRelay | ONICS.py:165-168 | corrected, with only the relay enabled and thread 0 not alive, a pass starts thread 1 and records it as the relay's handle |
| Restart.SecondPassFindsRelayAlive | ONICS.py:165-168 | corrected, a relay-only pass that finds the recorded thread 1 alive changes nothing |
| Restart.ValidAfterFlagsFall | ONICS.py:150-164 | because flags only ever clear, a pass never reads `thread2` or `thread3` unless it was assigned at start-up |
| Onics.Supervisor.constructor | ONICS.py:27-28 | at module load both cameras are enabled, no thread exists and the log is empty |
| Onics.Supervisor.Start | ONICS.py:126-156 | with `--enumerate`, only the report is produced and no flag, thread or handle changes; otherwise the flags are resolved and the start-up threads are created |
| Onics.Supervisor.ApplyArgs | ONICS.py:130-137 | the flags become `ResolveFlags` of the switches |
| Onics.Supervisor.StartWorkers | ONICS.py:147-156 | the threads and handles become those of start-up for the current flags, and every thread is the recorded one |
| Onics.Supervisor.MavproxyCreateConnection | ONICS.py:67-76 | runs the relay command once; a failed exit adds one error to the log, and nothing else changes |
| Onics.Supervisor.ProbeAndLaunch | ONICS.py:95-104 | a present device leaves the flags alone and logs only a failed launch; a missing device logs a warning and clears that camera's flag only |
| Onics.Supervisor.RunCamera | ONICS.py:79-104 | the loop's flag, probe count, launch count and log are those of `Workers.Run`; the flags only fall; valid handles stay valid |
| Onics.Supervisor.Watchlist | ONICS.py:160-164 | the list is the eligible workers in order, each paired with its recorded handle |
| Onics.Supervisor.MonitorCycle | ONICS.py:159-168 | one pass over the list changes the state exactly as `Restart.CycleAsWritten` does, and returns the respawned workers |
| Onics.Supervisor.MonitorCycleRebinding | ONICS.py:159-168 | the corrected pass changes the state exactly as `Restart.CycleRebinding` does, and returns the respawned workers |

## Left out

- Running `rs-enumerate-devices`, `mavproxy.py` and the two camera scripts
  is not modelled, because these are foreign processes. Their output is
  given as lines, and their exit as a boolean.
- Splitting the tool's output into lines (`splitlines`) is not modelled; the
  lines are given.
- The `except CalledProcessError` branches of `is_device_connected` and
  `enumerate_devices` are left out. Without `check=True` they are never
  taken.
- The uncaught `FileNotFoundError` is left out. It is raised when the
  enumeration tool is missing, and also when `mavproxy.py` or `python3`
  cannot be started, because ONICS.py:69-76, 84-86 and 97-100 catch only
  `CalledProcessError`. The thread then ends with no log line, and a
  camera's flag stays set. The model assumes every command can be started.
- `publish_logs` is left out: it is a file tail with an unbounded polling
  loop.
- The logging configuration, the text and levels of log messages, and the
  initialising `print` are left out. The log is modelled as a sequence of
  events: a failed command, or a missing device.
- Argument parsing is left out; the four switches arrive already parsed.
- The `cwd` computation for subprocesses is left out.
- Threads, `is_alive`, `time.sleep` and the `while True` loop are left out,
  because their point is concurrency. One monitoring pass is modelled, and
  the alive threads are given as an input set.
- Onics.Supervisor.MonitorCycle: liveness is one snapshot for the whole pass.
  The program calls `is_alive` per entry, so a thread ending during the pass
  is not modelled.
- Onics.Supervisor.RunCamera: the loop is observed over a finite sequence of
  attempts. When every attempt found the device, the program would go on
  probing; the model stops there, with the flag still set.
- Workers.Run: the same finite horizon as `RunCamera`.
- Concurrent interleaving is not modelled. That covers a camera thread
  clearing its flag while a monitoring pass builds its list, and the two
  camera threads writing the log at once.
- Restart.RebindingNeverDuplicates: the flags stay as start-up set them
  across the passes. A camera clearing its flag between two passes is not
  folded into `Passes`; `ValidAfterFlagsFall` shows that such a change
  keeps the handles valid and every thread ended or recorded.
- Onics.Supervisor.MonitorCycleRebinding: the corrected pass computes the new
  handles and threads on values, then stores them in the fields together,
  rather than field by field.

## Findings

| source | as written | input that shows it | evidently intended | confidence | as-written member | corrected member |
|---|---|---|---|---|---|---|
| ONICS.py:165-168 | a restarted thread is bound only to the loop variable `thread`; `thread1`, `thread2` and `thread3` keep the handle of the thread that ended | only the relay enabled (`--sik-only`). The relay's thread 0 ends, and the next pass starts thread 1. At the following pass thread 1 is alive, but `thread1` still holds thread 0, so thread 2 is started too: two relay threads are alive | the new handle replaces the recorded one, so that each pass inspects the current thread and no worker runs twice | not executed | Restart.DuplicateRunsAsWritten | Restart.RebindingNeverDuplicates |
