/** The device prober: scans the lines printed by `rs-enumerate-devices` for
    RealSense device classes, and builds the operator-facing enumeration report.
    The tool's output arrives as its lines; running the tool is not modelled. */
module Prober {
  import opened Text

  /** Device-class prefixes: the tracking camera and the depth-camera family. */
  const T265Prefix: string := "T265"
  const D4Prefix: string := "D4"

  /** The prefixes the enumeration report looks for, in the order it tries them. */
  const RelevantPrefixes: seq<string> := [T265Prefix, D4Prefix]

  const ReportHeader: string := "Detected RealSense Devices:"
  const NoDevicesMessage: string := "No relevant RealSense devices detected."

  /** Some line of the tool's output contains `prefix`. */
  predicate DeviceListed(lines: seq<string>, prefix: string) {
    exists i :: 0 <= i < |lines| && Contains(lines[i], prefix)
  }

  /** `is_device_connected`: scans the lines in order and answers as soon as one
      contains `prefix`. `scanned` is the index of the line the scan stopped at
      (the first match), or the number of lines when nothing matched. */
  method IsDeviceConnected(lines: seq<string>, prefix: string) returns (found: bool, ghost scanned: nat)
    ensures found <==> DeviceListed(lines, prefix)
    ensures found ==> scanned < |lines| && Contains(lines[scanned], prefix)
    ensures !found ==> scanned == |lines|
    ensures forall i :: 0 <= i < scanned && i < |lines| ==> !Contains(lines[i], prefix)
  {
    var i := 0;
    while i < |lines|
      invariant 0 <= i <= |lines|
      invariant forall j :: 0 <= j < i ==> !Contains(lines[j], prefix)
    {
      if Contains(lines[i], prefix) {
        return true, i;
      }
      i := i + 1;
    }
    return false, i;
  }

  /** `line` contains one of `prefixes`. */
  predicate MatchesAny(line: string, prefixes: seq<string>) {
    exists j :: 0 <= j < |prefixes| && Contains(line, prefixes[j])
  }

  /** The devices `enumerate_devices` collects: every line that contains a
      relevant prefix, stripped of surrounding whitespace, in output order. */
  function Relevant(lines: seq<string>): (devices: seq<string>)
    ensures |devices| <= |lines|
  {
    if lines == [] then
      []
    else
      var last := lines[|lines| - 1];
      var init := Relevant(lines[..|lines| - 1]);
      if MatchesAny(last, RelevantPrefixes) then init + [Strip(last)] else init
  }

  /** The positions of the relevant lines, in increasing order: a reference
      description of which lines the report selects. */
  ghost function MatchIndices(lines: seq<string>): (idx: seq<nat>)
    ensures forall k :: 0 <= k < |idx| ==> idx[k] < |lines|
  {
    if lines == [] then
      []
    else
      var n := |lines| - 1;
      var init := MatchIndices(lines[..n]);
      if MatchesAny(lines[n], RelevantPrefixes) then init + [n] else init
  }

  /** `MatchIndices` lists, in increasing order, exactly the positions of the
      lines that contain a relevant prefix. */
  lemma {:induction false} MatchIndicesAreTheMatches(lines: seq<string>)
    ensures var idx := MatchIndices(lines);
      && (forall a, b :: 0 <= a < b < |idx| ==> idx[a] < idx[b])
      && (forall i :: 0 <= i < |lines| ==> (i in idx <==> MatchesAny(lines[i], RelevantPrefixes)))
  {
    if lines != [] {
      var n := |lines| - 1;
      MatchIndicesAreTheMatches(lines[..n]);
      assert forall i :: 0 <= i < n ==> lines[..n][i] == lines[i];
    }
  }

  /** The report lists exactly the relevant lines, each once, in output order:
      device `k` is line `MatchIndices(lines)[k]`, stripped. A line that contains
      both prefixes is still listed once. */
  lemma {:induction false} RelevantIsOrderedSelection(lines: seq<string>)
    ensures |Relevant(lines)| == |MatchIndices(lines)|
    ensures forall k :: 0 <= k < |Relevant(lines)| ==>
              Relevant(lines)[k] == Strip(lines[MatchIndices(lines)[k]])
  {
    if lines != [] {
      var n := |lines| - 1;
      RelevantIsOrderedSelection(lines[..n]);
      SelectionExtends(lines);
    }
  }

  /** The inductive step of `RelevantIsOrderedSelection`: a selection that is
      right for all lines but the last stays right once the last is considered. */
  lemma SelectionExtends(lines: seq<string>)
    requires lines != []
    requires var init := lines[..|lines| - 1];
      && |Relevant(init)| == |MatchIndices(init)|
      && forall k :: 0 <= k < |Relevant(init)| ==> Relevant(init)[k] == Strip(init[MatchIndices(init)[k]])
    ensures |Relevant(lines)| == |MatchIndices(lines)|
    ensures forall k :: 0 <= k < |Relevant(lines)| ==>
              Relevant(lines)[k] == Strip(lines[MatchIndices(lines)[k]])
  {
    var n := |lines| - 1;
    var init := lines[..n];
    var r, m := Relevant(init), MatchIndices(init);
    var matched := MatchesAny(lines[n], RelevantPrefixes);
    MatchIndicesAreTheMatches(init);
    assert Relevant(lines) == if matched then r + [Strip(lines[n])] else r;
    assert MatchIndices(lines) == if matched then m + [n] else m;
    forall k | 0 <= k < |r|
      ensures Relevant(lines)[k] == Strip(lines[MatchIndices(lines)[k]])
    {
      assert Relevant(lines)[k] == r[k] && MatchIndices(lines)[k] == m[k];
      assert init[m[k]] == lines[m[k]];
    }
    if matched {
      assert Relevant(lines)[|r|] == Strip(lines[n]) && MatchIndices(lines)[|r|] == n;
    }
  }

  /** Both relevant prefixes are free of whitespace. */
  lemma RelevantPrefixesSolid(j: int)
    requires 0 <= j < |RelevantPrefixes|
    ensures RelevantPrefixes[j] != [] && Solid(RelevantPrefixes[j])
  {
    if j == 0 {
      assert RelevantPrefixes[j] == "T265";
    } else {
      assert RelevantPrefixes[j] == "D4";
    }
  }

  /** A matching line still names the same device class once stripped. */
  lemma StrippedLineMatches(line: string)
    requires MatchesAny(line, RelevantPrefixes)
    ensures MatchesAny(Strip(line), RelevantPrefixes)
  {
    var j :| 0 <= j < |RelevantPrefixes| && Contains(line, RelevantPrefixes[j]);
    RelevantPrefixesSolid(j);
    StripKeepsSolidOccurrence(line, RelevantPrefixes[j]);
  }

  /** Every listed device still names its device class after stripping. */
  lemma RelevantDevicesNameAClass(lines: seq<string>)
    ensures forall k :: 0 <= k < |Relevant(lines)| ==> MatchesAny(Relevant(lines)[k], RelevantPrefixes)
  {
    RelevantIsOrderedSelection(lines);
    MatchIndicesAreTheMatches(lines);
    forall k | 0 <= k < |Relevant(lines)|
      ensures MatchesAny(Relevant(lines)[k], RelevantPrefixes)
    {
      var i := MatchIndices(lines)[k];
      assert i in MatchIndices(lines);
      StrippedLineMatches(lines[i]);
    }
  }

  /** What `enumerate_devices` prints, one entry per printed line: the "none"
      message alone when nothing was collected, otherwise a header followed by
      the devices in collected order. */
  function Report(devices: seq<string>): (printed: seq<string>)
    ensures |printed| == |devices| + 1
    ensures printed[0] == NoDevicesMessage <==> devices == []
    ensures devices != [] ==> printed[0] == ReportHeader
    ensures printed[1..] == devices
  {
    if devices == [] then [NoDevicesMessage] else [ReportHeader] + devices
  }

  /** `enumerate_devices`: for each output line, tries the relevant prefixes in
      order and collects the stripped line at the first that matches (the
      `break` keeps a line from being collected twice), then prints the report. */
  method EnumerateDevices(lines: seq<string>) returns (printed: seq<string>)
    ensures printed == Report(Relevant(lines))
  {
    var detected: seq<string> := [];
    var i := 0;
    while i < |lines|
      invariant 0 <= i <= |lines|
      invariant detected == Relevant(lines[..i])
    {
      var line := lines[i];
      assert lines[..i + 1][..i] == lines[..i];
      var j := 0;
      while j < |RelevantPrefixes|
        invariant 0 <= j <= |RelevantPrefixes|
        invariant forall m :: 0 <= m < j ==> !Contains(line, RelevantPrefixes[m])
        invariant detected == Relevant(lines[..i])
      {
        if Contains(line, RelevantPrefixes[j]) {
          detected := detected + [Strip(line)];
          break;
        }
        j := j + 1;
      }
      assert detected == Relevant(lines[..i + 1]);
      i := i + 1;
    }
    assert lines[..i] == lines;
    printed := Report(detected);
  }
}
