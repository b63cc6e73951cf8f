/** The three supervised workers: the MAVLink relay (`mavproxy.py`) and the two
    camera bridges, each gated on its RealSense device being present. This
    module holds their fixed command lines and the specification of a camera
    worker's run loop (`run_t265` / `run_d4xx`) as a function of what its probes
    and launches observe. */
module Workers {
  import opened Prober
  import opened Config

  datatype Worker = Mavproxy | T265 | D4xx {
    /** The hardware-gated workers; the relay has no prerequisite. */
    predicate IsCamera() {
      this != Mavproxy
    }
  }

  // Endpoints fixed at module level.
  const InPort: string := "127.0.0.1:14550"
  const InBaud: string := "921600"
  const OutT265: string := "127.0.0.1:14540"
  const OutD4xx: string := "127.0.0.1:14560"
  const OutSik: string := "/dev/ttyUSB0"

  /** The argument vector each worker launches: the relay reads the flight
      controller and forwards over UDP to one endpoint per camera bridge and
      to the SiK radio; each bridge is `python3` running its script against
      its own endpoint. */
  function Command(w: Worker): (argv: seq<string>)
    ensures w == Mavproxy ==> |argv| == 9 && argv[0] == "mavproxy.py"
    ensures w == Mavproxy ==> argv[1] == "--master=" + InPort && argv[2] == "--baudrate=" + InBaud
    ensures w == Mavproxy ==> forall k :: 3 <= k < 9 && k % 2 == 1 ==> argv[k] == "--out"
    ensures w == Mavproxy ==> forall c: Worker :: c.IsCamera() ==> "udp:" + Endpoint(c) in argv
    ensures w == Mavproxy ==> argv[8] == OutSik
    ensures w.IsCamera() ==> |argv| == 3 && argv[0] == "python3" && argv[2] == "--connect=" + Endpoint(w)
    ensures w == T265 ==> argv[1] == "t265_precland_apriltags.py"
    ensures w == D4xx ==> argv[1] == "d4xx_to_mavlink.py"
  {
    match w
    case Mavproxy =>
      var argv := ["mavproxy.py", "--master=" + InPort, "--baudrate=" + InBaud,
                   "--out", "udp:" + OutT265, "--out", "udp:" + OutD4xx, "--out", OutSik];
      assert argv[4] == "udp:" + Endpoint(T265) && argv[6] == "udp:" + Endpoint(D4xx);
      argv
    case T265 => ["python3", "t265_precland_apriltags.py", "--connect=" + OutT265]
    case D4xx => ["python3", "d4xx_to_mavlink.py", "--connect=" + OutD4xx]
  }

  /** The endpoint a camera bridge sends its MAVLink messages to; the two
      bridges use different endpoints. */
  function Endpoint(w: Worker): (e: string)
    requires w.IsCamera()
    ensures e == OutT265 || e == OutD4xx
    ensures e == OutT265 <==> w == T265
  {
    if w == T265 then OutT265 else OutD4xx
  }

  /** The flag that gates camera worker `w`. */
  function Flag(f: Flags, w: Worker): bool
    requires w.IsCamera()
  {
    if w == T265 then f.t265 else f.d4xx
  }

  /** The flags after camera worker `w` clears its own flag. */
  function Disabled(f: Flags, w: Worker): (r: Flags)
    requires w.IsCamera()
    ensures Falls(f, r) && !Flag(r, w)
    ensures forall v: Worker :: v.IsCamera() && v != w ==> Flag(r, v) == Flag(f, v)
    ensures !Flag(f, w) ==> r == f
  {
    if w == T265 then f.(t265 := false) else f.(d4xx := false)
  }

  /** The device-class prefix a camera worker probes for. */
  function Prefix(w: Worker): string
    requires w.IsCamera()
  {
    if w == T265 then T265Prefix else D4Prefix
  }

  /** What one pass of a camera worker's loop observes: the lines the
      enumeration tool printed for the probe, and, if the device was present,
      whether the launched script ended with a non-zero exit. */
  datatype Attempt = Attempt(toolOutput: seq<string>, scriptFailed: bool)

  /** Events the workers append to the shared log: a launched command that
      exited with an error (logged at error level), and a camera whose device
      was not detected (logged at warning level). */
  datatype LogEvent = CommandFailed(worker: Worker) | DeviceMissing(worker: Worker)

  /** The probe of attempt `a` reports the camera present. */
  predicate Present(w: Worker, a: Attempt)
    requires w.IsCamera()
  {
    DeviceListed(a.toolOutput, Prefix(w))
  }

  /** The number of leading attempts whose probe reports the device present:
      how many times an enabled camera loop launches its script. */
  function Launches(w: Worker, attempts: seq<Attempt>): (n: nat)
    requires w.IsCamera()
    ensures n <= |attempts|
  {
    if attempts == [] || !Present(w, attempts[0]) then 0 else 1 + Launches(w, attempts[1..])
  }

  /** `Launches` is the length of the leading run of present probes: `n` is that
      count exactly when every earlier probe was present and probe `n`, if
      there is one, was not. */
  lemma {:induction false} LaunchesIsLeadingRun(w: Worker, attempts: seq<Attempt>, n: nat)
    requires w.IsCamera()
    ensures n == Launches(w, attempts) <==>
              && n <= |attempts|
              && (forall k :: 0 <= k < n ==> Present(w, attempts[k]))
              && (n < |attempts| ==> !Present(w, attempts[n]))
  {
    if 0 < n <= |attempts| {
      var rest := attempts[1..];
      LaunchesIsLeadingRun(w, rest, n - 1);
      assert forall k :: 1 <= k < n ==> rest[k - 1] == attempts[k];
      if forall k :: 0 <= k < n - 1 ==> Present(w, rest[k]) {
        assert forall k :: 1 <= k < n ==> Present(w, attempts[k]);
      }
    }
  }

  /** The error events logged by the launches of `attempts`, in order. */
  function ScriptErrors(w: Worker, attempts: seq<Attempt>): (log: seq<LogEvent>)
    ensures |log| <= |attempts|
    ensures forall i :: 0 <= i < |log| ==> log[i] == CommandFailed(w)
  {
    if attempts == [] then
      []
    else
      var n := |attempts| - 1;
      ScriptErrors(w, attempts[..n]) + if attempts[n].scriptFailed then [CommandFailed(w)] else []
  }

  /** Extending the attempts by one appends that launch's error event, if any. */
  lemma ScriptErrorsStep(w: Worker, attempts: seq<Attempt>, i: nat)
    requires i < |attempts|
    ensures ScriptErrors(w, attempts[..i + 1]) ==
              ScriptErrors(w, attempts[..i]) + if attempts[i].scriptFailed then [CommandFailed(w)] else []
  {
    assert attempts[..i + 1][..i] == attempts[..i];
  }

  /** The effect of one camera worker thread, given what its probes and
      launches observe. */
  datatype Outcome = Outcome(enabled: bool, probes: nat, launches: nat, log: seq<LogEvent>)

  /** The specification of `run_t265` / `run_d4xx` started with the worker's
      flag at `enabled`: while the flag holds, probe; a present device launches
      the script (a failure only adds a log line) and the loop goes round again;
      an absent device logs a warning, clears the flag and ends the loop. When
      the attempts run out with every probe present, the loop is still running
      and the flag is still set. */
  function Run(w: Worker, enabled: bool, attempts: seq<Attempt>): (o: Outcome)
    requires w.IsCamera()
    ensures o.enabled ==> enabled
    ensures o.launches <= o.probes <= |attempts|
    ensures !enabled ==> o.probes == 0 && o.log == []
  {
    if !enabled then
      Outcome(false, 0, 0, [])
    else
      var n := Launches(w, attempts);
      if n < |attempts| then
        Outcome(false, n + 1, n, ScriptErrors(w, attempts[..n]) + [DeviceMissing(w)])
      else
        Outcome(true, n, n, ScriptErrors(w, attempts))
  }

  /** An enabled loop whose probes `0 .. i-1` found the device and whose probe
      `i` did not ends after probe `i`, having launched `i` times. */
  lemma RunStopsAtMissing(w: Worker, attempts: seq<Attempt>, i: nat)
    requires w.IsCamera() && i < |attempts|
    requires forall k :: 0 <= k < i ==> Present(w, attempts[k])
    requires !Present(w, attempts[i])
    ensures Run(w, true, attempts) == Outcome(false, i + 1, i, ScriptErrors(w, attempts[..i]) + [DeviceMissing(w)])
  {
    LaunchesIsLeadingRun(w, attempts, i);
  }

  /** An enabled loop whose every probe found the device launches every time and
      is still enabled. */
  lemma RunAllPresent(w: Worker, attempts: seq<Attempt>)
    requires w.IsCamera()
    requires forall k :: 0 <= k < |attempts| ==> Present(w, attempts[k])
    ensures Run(w, true, attempts) == Outcome(true, |attempts|, |attempts|, ScriptErrors(w, attempts))
  {
    LaunchesIsLeadingRun(w, attempts, |attempts|);
  }

  /** A camera worker disables itself at most once, exactly when a probe finds
      its device missing; the warning is its last event, and it launches
      nothing after that probe. */
  lemma DisablesOnlyOnMissingDevice(w: Worker, enabled: bool, attempts: seq<Attempt>)
    requires w.IsCamera()
    ensures var o := Run(w, enabled, attempts);
      && (enabled && !o.enabled <==> DeviceMissing(w) in o.log)
      && (forall i :: 0 <= i < |o.log| && o.log[i].DeviceMissing? ==> i == |o.log| - 1)
      && (enabled && !o.enabled ==> o.probes == o.launches + 1 && !Present(w, attempts[o.launches]))
  {
    var o := Run(w, enabled, attempts);
    if enabled {
      var n := Launches(w, attempts);
      LaunchesIsLeadingRun(w, attempts, n);
      if n < |attempts| {
        var errors := ScriptErrors(w, attempts[..n]);
        assert o.log[|o.log| - 1] == DeviceMissing(w);
        assert forall i :: 0 <= i < |errors| ==> o.log[i] == errors[i];
      } else {
        assert forall i :: 0 <= i < |o.log| ==> o.log[i] == CommandFailed(w);
      }
    }
  }

  /** How the launched scripts ended has no bearing on the flag or on how often
      the loop probes and launches: only the probes decide. */
  lemma {:induction false} ScriptOutcomeIrrelevant(w: Worker, a: seq<Attempt>, b: seq<Attempt>)
    requires w.IsCamera()
    requires |a| == |b| && forall k :: 0 <= k < |a| ==> a[k].toolOutput == b[k].toolOutput
    ensures Launches(w, a) == Launches(w, b)
    ensures forall e :: Run(w, e, a).enabled == Run(w, e, b).enabled
    ensures forall e :: Run(w, e, a).probes == Run(w, e, b).probes
  {
    if a != [] {
      assert Present(w, a[0]) == Present(w, b[0]);
      ScriptOutcomeIrrelevant(w, a[1..], b[1..]);
    }
  }
}
