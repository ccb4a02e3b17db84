/** Which readings the replay emits, one by one. */
module ReplayLaws {
  import opened Wrappers
  import opened Replay

  /** A sensor of a device, by their positions in the configuration. */
  datatype Source = Source(device: nat, sensor: nat)

  predicate Earlier(a: Source, b: Source) {
    a.device < b.device || (a.device == b.device && a.sensor < b.sensor)
  }

  /** Step k mod n of the device's series when looping, and step min(k, n - 1) when not. */
  function DueStep(d: Device, series: map<string, seq<Step>>, loop: bool, k: nat): Option<Step> {
    if d.id !in series || series[d.id] == [] then None
    else
      var n := |series[d.id]|;
      Some(series[d.id][if loop then k % n else if k < n then k else n - 1])
  }

  /** The step due at call `k` has a sample for the sensor. */
  predicate Speaks(s: Source, devices: seq<Device>, series: map<string, seq<Step>>, loop: bool, k: nat) {
    && s.device < |devices| && s.sensor < |devices[s.device].sensors|
    && var step := DueStep(devices[s.device], series, loop, k);
       step.Some? && devices[s.device].sensors[s.sensor].name in step.value
  }

  /** The sources that speak, device by device and sensor by sensor. */
  ghost predicate AllSources(at: seq<Source>, devices: seq<Device>, series: map<string, seq<Step>>, loop: bool, k: nat) {
    && (forall i, j | 0 <= i < j < |at| :: Earlier(at[i], at[j]))
    && forall s: Source :: s in at <==> Speaks(s, devices, series, loop, k)
  }

  /** The reading carries the sample of its source, rounded, under the sensor's unit. */
  ghost predicate Reports(r: Reading, s: Source, devices: seq<Device>, series: map<string, seq<Step>>, loop: bool, k: nat,
                          round: real -> real)
    requires Speaks(s, devices, series, loop, k)
  {
    var d := devices[s.device];
    var sample := DueStep(d, series, loop, k).value[d.sensors[s.sensor].name];
    && r.deviceId == d.id && r.sensor == d.sensors[s.sensor].name && r.unit == d.sensors[s.sensor].unit
    && r.value == round(sample.value) && r.anomaly == sample.anomaly
  }

  ghost predicate ReportsEach(readings: seq<Reading>, at: seq<Source>, devices: seq<Device>, series: map<string, seq<Step>>,
                              loop: bool, k: nat, round: real -> real)
    requires AllSources(at, devices, series, loop, k)
  {
    && |readings| == |at|
    && forall i | 0 <= i < |at| ::
         assert at[i] in at;
         Reports(readings[i], at[i], devices, series, loop, k, round)
  }

  /** The positions, in ascending order, of the sensors that the step has a sample for. */
  ghost predicate SampledAt(at: seq<nat>, sensors: seq<Sensor>, step: Step) {
    && (forall i, j | 0 <= i < j < |at| :: at[i] < at[j])
    && forall j: nat :: j in at <==> j < |sensors| && sensors[j].name in step
  }

  /** One reading for each of them. */
  ghost predicate SamplesEach(readings: seq<Reading>, at: seq<nat>, d: Device, sensors: seq<Sensor>, step: Step, round: real -> real) {
    && |readings| == |at|
    && forall i | 0 <= i < |at| ::
         && at[i] < |sensors| && sensors[at[i]].name in step
         && var sample := step[sensors[at[i]].name];
            readings[i] == Reading(d.id, sensors[at[i]].name, round(sample.value), sensors[at[i]].unit, sample.anomaly)
  }

  lemma {:induction false} SamplesInOrder(d: Device, sensors: seq<Sensor>, step: Step, round: real -> real) returns (at: seq<nat>)
    ensures SampledAt(at, sensors, step)
    ensures SamplesEach(SamplesOf(d, sensors, step, round), at, d, sensors, step, round)
  {
    at := [];
    if sensors != [] {
      var last := |sensors| - 1;
      var before := SamplesInOrder(d, sensors[..last], step, round);
      at := before + if sensors[last].name in step then [last] else [];
      forall i | 0 <= i < |before| ensures before[i] < last && sensors[..last][before[i]] == sensors[before[i]] {
        assert before[i] in before;
      }
      forall j: nat ensures j in at <==> j < |sensors| && sensors[j].name in step {
        assert j in before <==> j < last && sensors[..last][j].name in step;
      }
    }
  }

  lemma FromDeviceIsDue(d: Device, series: map<string, seq<Step>>, loop: bool, k: nat, round: real -> real)
    ensures FromDevice(d, series, loop, k, round)
         == match DueStep(d, series, loop, k)
            case None => []
            case Some(step) => SamplesOf(d, d.sensors, step, round)
  {
    hide SamplesOf;
  }

  function SourcesOf(device: nat, at: seq<nat>): (r: seq<Source>)
    ensures |r| == |at|
  {
    seq(|at|, i requires 0 <= i < |at| => Source(device, at[i]))
  }

  lemma SourceHere(s: Source, device: nat, at: seq<nat>)
    ensures s in SourcesOf(device, at) <==> s.device == device && s.sensor in at
  {
    if s.device == device && s.sensor in at {
      var i :| 0 <= i < |at| && at[i] == s.sensor;
      assert SourcesOf(device, at)[i] == s;
    }
  }

  /** The sensors of the last device that speak. */
  lemma LastDevice(devices: seq<Device>, series: map<string, seq<Step>>, loop: bool, k: nat, round: real -> real)
    returns (at: seq<nat>)
    requires devices != []
    ensures forall i, j | 0 <= i < j < |at| :: at[i] < at[j]
    ensures var last := |devices| - 1;
            forall j: nat :: j in at <==> Speaks(Source(last, j), devices, series, loop, k)
    ensures var last := |devices| - 1; var here := FromDevice(devices[last], series, loop, k, round);
            && |here| == |at|
            && forall i | 0 <= i < |at| ::
                 Speaks(Source(last, at[i]), devices, series, loop, k)
                 && Reports(here[i], Source(last, at[i]), devices, series, loop, k, round)
  {
    var last := |devices| - 1;
    var d := devices[last];
    FromDeviceIsDue(d, series, loop, k, round);
    var step := DueStep(d, series, loop, k);
    hide DueStep, FromDevice, SamplesOf;
    at := [];
    if step.Some? { at := SamplesInOrder(d, d.sensors, step.value, round); }
  }

  lemma SpeaksEarlier(s: Source, devices: seq<Device>, series: map<string, seq<Step>>, loop: bool, k: nat)
    requires devices != []
    ensures s.device < |devices| - 1 ==>
              (Speaks(s, devices[..|devices| - 1], series, loop, k) <==> Speaks(s, devices, series, loop, k))
    ensures Speaks(s, devices[..|devices| - 1], series, loop, k) ==>
              s.device < |devices| - 1 && devices[..|devices| - 1][s.device] == devices[s.device]
  {
    hide DueStep;
  }

  lemma SourcesNext(before: seq<Source>, devices: seq<Device>, series: map<string, seq<Step>>, loop: bool, k: nat, at: seq<nat>)
    requires devices != [] && AllSources(before, devices[..|devices| - 1], series, loop, k)
    requires forall i, j | 0 <= i < j < |at| :: at[i] < at[j]
    requires forall j: nat :: j in at <==> Speaks(Source(|devices| - 1, j), devices, series, loop, k)
    ensures AllSources(before + SourcesOf(|devices| - 1, at), devices, series, loop, k)
  {
    var last := |devices| - 1;
    var here := SourcesOf(last, at);
    var all := before + here;
    forall s: Source ensures s in all <==> Speaks(s, devices, series, loop, k) {
      SourceHere(s, last, at);
      SpeaksEarlier(s, devices, series, loop, k);
      assert s in all <==> s in before || s in here;
      if s.device == last { assert s == Source(last, s.sensor); }
      if Speaks(s, devices, series, loop, k) { assert s.device <= last; }
    }
    hide Speaks;
    forall i, j | 0 <= i < j < |all| ensures Earlier(all[i], all[j]) {
      if i < |before| { assert before[i] in before; SpeaksEarlier(before[i], devices, series, loop, k); }
    }
  }

  /** Call number `k` (from 0) emits, device by device and sensor by sensor, one reading for
      every sample in the steps due. */
  lemma {:induction false} CallEmitsTheDueSamples(devices: seq<Device>, series: map<string, seq<Step>>, loop: bool, k: nat,
                                                  round: real -> real) returns (at: seq<Source>)
    ensures AllSources(at, devices, series, loop, k)
    ensures ReportsEach(EmittedAt(devices, series, loop, k, round), at, devices, series, loop, k, round)
  {
    at := [];
    if devices != [] {
      var last := |devices| - 1;
      var before := CallEmitsTheDueSamples(devices[..last], series, loop, k, round);
      var here := LastDevice(devices, series, loop, k, round);
      SourcesNext(before, devices, series, loop, k, here);
      at := before + SourcesOf(last, here);
      hide *;
      assert EmittedAt(devices, series, loop, k, round)
          == EmittedAt(devices[..last], series, loop, k, round) + FromDevice(devices[last], series, loop, k, round) by {
        EmittedLast(devices, series, loop, k, round);
      }
      ReportsNext(before, devices, series, loop, k, here, EmittedAt(devices[..last], series, loop, k, round), round);
    } else {
      hide DueStep;
    }
  }

  lemma EmittedLast(devices: seq<Device>, series: map<string, seq<Step>>, loop: bool, k: nat, round: real -> real)
    requires devices != []
    ensures EmittedAt(devices, series, loop, k, round)
         == EmittedAt(devices[..|devices| - 1], series, loop, k, round)
            + FromDevice(devices[|devices| - 1], series, loop, k, round)
  {
    hide FromDevice;
  }

  lemma ReportsEarlier(r: Reading, s: Source, devices: seq<Device>, series: map<string, seq<Step>>, loop: bool, k: nat,
                       round: real -> real)
    requires devices != [] && Speaks(s, devices[..|devices| - 1], series, loop, k)
    requires Reports(r, s, devices[..|devices| - 1], series, loop, k, round)
    ensures Speaks(s, devices, series, loop, k) && Reports(r, s, devices, series, loop, k, round)
  {
    hide DueStep;
    SpeaksEarlier(s, devices, series, loop, k);
  }

  lemma ReportsNext(before: seq<Source>, devices: seq<Device>, series: map<string, seq<Step>>, loop: bool, k: nat, at: seq<nat>,
                    earlier: seq<Reading>, round: real -> real)
    requires devices != [] && AllSources(before, devices[..|devices| - 1], series, loop, k)
    requires ReportsEach(earlier, before, devices[..|devices| - 1], series, loop, k, round)
    requires AllSources(before + SourcesOf(|devices| - 1, at), devices, series, loop, k)
    requires var last := |devices| - 1; var here := FromDevice(devices[last], series, loop, k, round);
             && |here| == |at|
             && forall i | 0 <= i < |at| ::
                  Speaks(Source(last, at[i]), devices, series, loop, k)
                  && Reports(here[i], Source(last, at[i]), devices, series, loop, k, round)
    ensures var last := |devices| - 1;
            ReportsEach(earlier + FromDevice(devices[last], series, loop, k, round), before + SourcesOf(last, at), devices,
                        series, loop, k, round)
  {
    hide Speaks, DueStep, FromDevice, Reports;
    forall i | 0 <= i < |before|
      ensures Speaks(before[i], devices, series, loop, k) && Reports(earlier[i], before[i], devices, series, loop, k, round)
    {
      assert before[i] in before;
      ReportsEarlier(earlier[i], before[i], devices, series, loop, k, round);
    }
  }

  /** The columns of the data set, in the order the source takes them. */
  lemma SecomColumnsInOrder(k: nat)
    requires k < 5
    ensures SecomColumn(["temperature", "pressure", "vibration", "flow", "current"][k]) == Some(k)
  {
    assert "temperature"[0] == 't' && "pressure"[0] == 'p' && "vibration"[0] == 'v' && "flow"[0] == 'f' && "current"[0] == 'c';
  }

  /** The interval a column is scaled to is that of the first sensor of its name. */
  lemma {:induction false} FirstOfThatName(sensors: seq<Sensor>, name: string) returns (i: nat)
    requires Listed(sensors, name)
    ensures i < |sensors| && sensors[i] == SensorNamed(sensors, name) && sensors[i].name == name
    ensures forall j | 0 <= j < i :: sensors[j].name != name
  {
    if sensors[0].name == name {
      i := 0;
    } else {
      var rest := FirstOfThatName(sensors[1..], name);
      i := rest + 1;
      forall j | 0 <= j < i ensures sensors[j].name != name { if j > 0 { assert sensors[1..][j - 1] == sensors[j]; } }
    }
  }
}
