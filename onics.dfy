/** The supervisor process itself: the program's module-level state (the two
    enable flags, the thread handles, the shared log) and the operations that
    change it, each proved against the specifications in Prober, Config,
    Workers and Restart. Threads, subprocesses and sleeping are not modelled:
    what a probe printed, how a script ended and which threads are alive are
    given to each operation. */
module Onics {
  import opened Prober
  import opened Config
  import opened Workers
  import opened Restart

  class Supervisor {
    /** `t265_enabled` and `d4xx_enabled`. */
    var t265Enabled: bool
    var d4xxEnabled: bool
    /** The handles held in `thread1`, `thread2`, `thread3`. */
    var bound: map<Worker, nat>
    /** Every thread created so far, by number: the worker it runs. */
    var runs: seq<Worker>
    /** Threads the monitoring loop has found not alive: bookkeeping of the
        model, which the program itself does not keep. */
    var dead: set<nat>
    /** The shared log file, append-only. */
    var log: seq<LogEvent>

    function CurrentFlags(): Flags
      reads this
    {
      Flags(t265Enabled, d4xxEnabled)
    }

    /** The flag of camera worker `w`. */
    function Enabled(w: Worker): bool
      requires w.IsCamera()
      reads this
    {
      if w == T265 then t265Enabled else d4xxEnabled
    }

    function Current(): State
      reads this
    {
      State(CurrentFlags(), bound, runs, dead)
    }

    /** Module load: both cameras enabled, no thread started, empty log. */
    constructor ()
      ensures CurrentFlags() == Defaults
      ensures bound == map[] && runs == [] && dead == {} && log == []
    {
      t265Enabled, d4xxEnabled := true, true;
      bound, runs, dead, log := map[], [], {}, [];
    }

    /** The entry point up to the monitoring loop. With `--enumerate` it only
        produces the enumeration report (from the tool's output lines) and
        changes nothing. Otherwise it resolves the flags and starts the relay
        thread, then a thread for each camera still enabled. */
    method Start(args: Args, toolOutput: seq<string>) returns (report: seq<string>)
      requires runs == [] && bound == map[] && dead == {}
      modifies this
      ensures log == old(log)
      ensures args.enumerate ==> report == Report(Relevant(toolOutput))
      ensures args.enumerate ==> CurrentFlags() == old(CurrentFlags()) && runs == [] && bound == map[] && dead == {}
      ensures !args.enumerate ==> report == [] && Current() == Launch(ResolveFlags(args, old(CurrentFlags())))
    {
      if args.enumerate {
        report := EnumerateDevices(toolOutput);
      } else {
        report := [];
        ApplyArgs(args);
        StartWorkers();
      }
    }

    /** The flag handling of the entry point. */
    method ApplyArgs(args: Args)
      modifies this`t265Enabled, this`d4xxEnabled
      ensures CurrentFlags() == ResolveFlags(args, old(CurrentFlags()))
    {
      if args.sikOnly {
        t265Enabled := false;
        d4xxEnabled := false;
      } else {
        if args.disableT265 {
          t265Enabled := false;
        }
        if args.disableD4xx {
          d4xxEnabled := false;
        }
      }
    }

    /** Starts `thread1` for the relay, then `thread2` and `thread3` for the
        cameras whose flag is set. */
    method StartWorkers()
      requires runs == [] && bound == map[] && dead == {}
      modifies this`bound, this`runs
      ensures Current() == Launch(CurrentFlags())
      ensures Valid(Current()) && Replaced(Current())
    {
      bound := map[Mavproxy := |runs|];
      runs := runs + [Mavproxy];
      if t265Enabled {
        bound := bound[T265 := |runs|];
        runs := runs + [T265];
      }
      if d4xxEnabled {
        bound := bound[D4xx := |runs|];
        runs := runs + [D4xx];
      }
      LaunchStartsEligible(CurrentFlags());
    }

    /** `mavproxy_create_connection`: runs the relay once; a non-zero exit is
        logged and the call returns normally. No flag is involved. */
    method MavproxyCreateConnection(exitFailed: bool) returns (argv: seq<string>)
      modifies this`log
      ensures argv == Command(Mavproxy)
      ensures log == old(log) + if exitFailed then [CommandFailed(Mavproxy)] else []
    {
      argv := Command(Mavproxy);
      if exitFailed {
        log := log + [CommandFailed(Mavproxy)];
      }
    }

    /** One pass of the body of `run_t265` / `run_d4xx`: probe for the device;
        if it is missing, log a warning and clear the worker's flag; otherwise
        launch the script, logging an error if it fails. */
    method ProbeAndLaunch(w: Worker, a: Attempt) returns (found: bool)
      requires w.IsCamera()
      modifies this`t265Enabled, this`d4xxEnabled, this`log
      ensures found <==> Present(w, a)
      ensures found ==> CurrentFlags() == old(CurrentFlags())
      ensures found ==> log == old(log) + if a.scriptFailed then [CommandFailed(w)] else []
      ensures !found ==> CurrentFlags() == Disabled(old(CurrentFlags()), w)
      ensures !found ==> log == old(log) + [DeviceMissing(w)]
    {
      ghost var stop: nat;
      found, stop := IsDeviceConnected(a.toolOutput, Prefix(w));
      if !found {
        log := log + [DeviceMissing(w)];
        if w == T265 {
          t265Enabled := false;
        } else {
          d4xxEnabled := false;
        }
      } else {
        // The script runs with argument vector Command(w).
        if a.scriptFailed {
          log := log + [CommandFailed(w)];
        }
      }
    }

    /** `run_t265` (for `T265`) and `run_d4xx` (for `D4xx`): the loop runs while
        the worker's flag is set and attempts remain. */
    method RunCamera(w: Worker, attempts: seq<Attempt>) returns (probes: nat, launches: nat)
      requires w.IsCamera()
      modifies this`t265Enabled, this`d4xxEnabled, this`log
      ensures var o := Run(w, old(Enabled(w)), attempts);
        && Enabled(w) == o.enabled && probes == o.probes && launches == o.launches
        && log == old(log) + o.log
        && CurrentFlags() == if o.enabled then old(CurrentFlags()) else Disabled(old(CurrentFlags()), w)
      ensures Falls(old(CurrentFlags()), CurrentFlags())
      ensures Valid(old(Current())) ==> Valid(Current())
      ensures Valid(old(Current())) && Replaced(old(Current())) ==> Replaced(Current())
    {
      probes, launches := 0, 0;
      var i := 0;
      ghost var missing := false;
      while Enabled(w) && i < |attempts|
        invariant 0 <= i <= |attempts| && probes == launches == i
        invariant CurrentFlags() == old(CurrentFlags())
        invariant i > 0 ==> old(Enabled(w))
        invariant forall k :: 0 <= k < i ==> Present(w, attempts[k])
        invariant log == old(log) + ScriptErrors(w, attempts[..i])
      {
        ghost var errors := ScriptErrors(w, attempts[..i]);
        var found := ProbeAndLaunch(w, attempts[i]);
        probes := probes + 1;
        if !found {
          RunStopsAtMissing(w, attempts, i);
          ConcatAssociates(old(log), errors, [DeviceMissing(w)]);
          missing := true;
          break;
        }
        launches := launches + 1;
        ScriptErrorsStep(w, attempts, i);
        ConcatAssociates(old(log), errors, if attempts[i].scriptFailed then [CommandFailed(w)] else []);
        assert log == old(log) + ScriptErrors(w, attempts[..i + 1]);
        assert forall k :: 0 <= k < i + 1 ==> Present(w, attempts[k]);
        i := i + 1;
      }
      if !missing && old(Enabled(w)) {
        assert attempts[..i] == attempts;
        RunAllPresent(w, attempts);
      }
      if Valid(old(Current())) {
        ValidAfterFlagsFall(old(Current()), CurrentFlags());
        assert Current() == old(Current()).(flags := CurrentFlags());
      }
    }

    /** The list each pass of the monitoring loop builds: the relay and then
        each camera whose flag is set, in that order, each with its recorded
        handle. */
    method Watchlist() returns (threads: seq<(nat, Worker)>)
      requires Valid(Current())
      ensures var ws := Eligible(CurrentFlags());
        |threads| == |ws| && forall k :: 0 <= k < |ws| ==> threads[k] == (bound[ws[k]], ws[k])
    {
      threads := [(bound[Mavproxy], Mavproxy)];
      if t265Enabled {
        threads := threads + [(bound[T265], T265)];
      }
      if d4xxEnabled {
        threads := threads + [(bound[D4xx], D4xx)];
      }
    }

    /** One pass of the monitoring loop as written: a new thread is started for
        every listed entry whose thread is not alive, and bound only to the loop
        variable. */
    method MonitorCycle(alive: set<nat>) returns (respawned: seq<Worker>)
      requires Valid(Current())
      modifies this`runs, this`dead
      ensures Current() == CycleAsWritten(old(Current()), alive)
      ensures respawned == Respawned(old(Current()), alive)
    {
      var threads := Watchlist();
      ghost var ws := Eligible(CurrentFlags());
      respawned := [];
      var i := 0;
      while i < |threads|
        invariant 0 <= i <= |threads|
        invariant respawned == Respawn(bound, ws[..i], alive)
        invariant runs == old(runs) + respawned
        invariant dead == old(dead) + Ended(bound, ws[..i], alive)
      {
        var thread := threads[i].0;
        var w := threads[i].1;
        assert thread == bound[ws[i]] && w == ws[i];
        PrefixOneMore(bound, ws, i, alive);
        ghost var ended := Ended(bound, ws[..i], alive);
        if thread !in alive {
          ConcatAssociates(old(runs), respawned, [w]);
          UnionAssociates(old(dead), ended, {thread});
          runs := runs + [w];
          dead := dead + {thread};
          respawned := respawned + [w];
        }
        i := i + 1;
      }
      assert ws[..i] == ws;
    }

    /** One pass of the monitoring loop with the new handle stored back under
        the worker's name, as the loop evidently intends: the next pass then
        inspects the thread just started. */
    method MonitorCycleRebinding(alive: set<nat>) returns (respawned: seq<Worker>)
      requires Valid(Current())
      modifies this`bound, this`runs, this`dead
      ensures Current() == CycleRebinding(old(Current()), alive)
      ensures respawned == Respawned(old(Current()), alive)
    {
      var s := Current();
      var threads := Watchlist();
      var t;
      t, respawned := RebindingPass(s, threads, alive);
      bound, runs, dead := t.bound, t.runs, t.dead;
    }
  }
}
