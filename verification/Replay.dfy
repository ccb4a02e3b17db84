/** Replaying recorded data sets through the simulated devices. */
module Replay {
  import opened Wrappers

  // ---- Scaling a series ----

  /** A missing cell (NaN) is `None`. */
  type Series = seq<Option<real>>

  function Finite(values: Series): seq<real> {
    if values == [] then []
    else
      var last := values[|values| - 1];
      Finite(values[..|values| - 1]) + if last.Some? then [last.value] else []
  }

  function MinOf(s: seq<real>): real
    requires s != []
  {
    if |s| == 1 then s[0]
    else
      var m := MinOf(s[..|s| - 1]);
      if s[|s| - 1] < m then s[|s| - 1] else m
  }

  function MaxOf(s: seq<real>): real
    requires s != []
  {
    if |s| == 1 then s[0]
    else
      var m := MaxOf(s[..|s| - 1]);
      if s[|s| - 1] > m then s[|s| - 1] else m
  }

  function Mid(lo: real, hi: real): real { lo + (hi - lo) / 2.0 }

  /** How far `v` is on the way from `a` to `b`. */
  function Fraction(v: real, a: real, b: real): real
    requires a != b
  {
    (v - a) / (b - a)
  }

  /** The point that far on the way from `lo` to `hi`. */
  function OnTheWay(p: real, lo: real, hi: real): real { lo + p * (hi - lo) }

  function Stretch(v: real, a: real, b: real, lo: real, hi: real): real
    requires a != b
  {
    OnTheWay(Fraction(v, a, b), lo, hi)
  }

  /** Where one cell of a series lands. */
  function ScaleOne(finite: seq<real>, cell: Option<real>, lo: real, hi: real): real {
    if finite == [] || MaxOf(finite) == MinOf(finite) || cell.None? then Mid(lo, hi)
    else Stretch(cell.value, MinOf(finite), MaxOf(finite), lo, hi)
  }

  function ScaleSeries(values: Series, lo: real, hi: real): (r: seq<real>)
    ensures |r| == |values|
  {
    var finite := Finite(values);
    seq(|values|, i requires 0 <= i < |values| => ScaleOne(finite, values[i], lo, hi))
  }

  lemma {:induction false} FiniteMembers(values: Series)
    ensures forall i | 0 <= i < |values| && values[i].Some? :: values[i].value in Finite(values)
    ensures forall v | v in Finite(values) :: exists i :: 0 <= i < |values| && values[i] == Some(v)
  {
    if values != [] {
      var last := |values| - 1;
      FiniteMembers(values[..last]);
      forall v | v in Finite(values) ensures exists i :: 0 <= i < |values| && values[i] == Some(v) {
        if v in Finite(values[..last]) {
          var i :| 0 <= i < last && values[..last][i] == Some(v);
          assert values[i] == Some(v);
        } else {
          assert values[last] == Some(v);
        }
      }
      forall i | 0 <= i < |values| && values[i].Some? ensures values[i].value in Finite(values) {
        if i < last { assert values[..last][i] == values[i]; }
      }
    }
  }

  lemma {:induction false} Extremes(s: seq<real>)
    requires s != []
    ensures MinOf(s) in s && MaxOf(s) in s
    ensures forall v | v in s :: MinOf(s) <= v <= MaxOf(s)
  {
    if |s| > 1 {
      Extremes(s[..|s| - 1]);
      assert s == s[..|s| - 1] + [s[|s| - 1]];
    }
  }

  lemma FractionOrders(u: real, v: real, a: real, b: real)
    requires a < b && a <= u <= v <= b
    ensures 0.0 <= Fraction(u, a, b) <= Fraction(v, a, b) <= 1.0
    ensures u < v ==> Fraction(u, a, b) < Fraction(v, a, b)
    ensures Fraction(a, a, b) == 0.0 && Fraction(b, a, b) == 1.0
  {
    var d := b - a;
    DivideOrders(0.0, u - a, d);
    DivideOrders(u - a, v - a, d);
    DivideOrders(v - a, d, d);
    FractionEnds(a, b);
  }

  lemma FractionEnds(a: real, b: real)
    requires a < b
    ensures Fraction(a, a, b) == 0.0 && Fraction(b, a, b) == 1.0
  {
    var d := b - a;
    DivideOrders(0.0, d, d);
    assert Fraction(b, a, b) == d / d && Fraction(a, a, b) == 0.0 / d;
  }

  lemma DivideOrders(x: real, y: real, d: real)
    requires x <= y && d > 0.0
    ensures x / d <= y / d && (x < y ==> x / d < y / d) && 0.0 / d == 0.0 && d / d == 1.0
  {
    assert (y - x) / d >= 0.0;
    assert y / d - x / d == (y - x) / d;
  }

  lemma OnTheWayOrders(p: real, q: real, lo: real, hi: real)
    requires 0.0 <= p <= q <= 1.0 && lo <= hi
    ensures lo <= OnTheWay(p, lo, hi) <= OnTheWay(q, lo, hi) <= hi
    ensures p < q && lo < hi ==> OnTheWay(p, lo, hi) < OnTheWay(q, lo, hi)
    ensures OnTheWay(0.0, lo, hi) == lo && OnTheWay(1.0, lo, hi) == hi
  {
    hide OnTheWay;
    OnTheWayEnds(lo, hi);
    OnTheWayDiffers(0.0, p, lo, hi);
    OnTheWayDiffers(p, q, lo, hi);
    OnTheWayDiffers(q, 1.0, lo, hi);
  }

  lemma OnTheWayEnds(lo: real, hi: real)
    ensures OnTheWay(0.0, lo, hi) == lo && OnTheWay(1.0, lo, hi) == hi
  {
  }

  lemma OnTheWayDiffers(p: real, q: real, lo: real, hi: real)
    requires p <= q && lo <= hi
    ensures OnTheWay(p, lo, hi) <= OnTheWay(q, lo, hi)
    ensures p < q && lo < hi ==> OnTheWay(p, lo, hi) < OnTheWay(q, lo, hi)
  {
    var w := hi - lo;
    ProductSign(q - p, w);
    assert (q - p) * w == q * w - p * w;
  }

  lemma ProductSign(x: real, w: real)
    requires x >= 0.0 && w >= 0.0
    ensures x * w >= 0.0 && (x > 0.0 && w > 0.0 ==> x * w > 0.0)
  {
  }

  lemma StretchOrders(u: real, v: real, a: real, b: real, lo: real, hi: real)
    requires a < b && a <= u <= v <= b && lo <= hi
    ensures lo <= Stretch(u, a, b, lo, hi) <= Stretch(v, a, b, lo, hi) <= hi
    ensures u < v && lo < hi ==> Stretch(u, a, b, lo, hi) < Stretch(v, a, b, lo, hi)
    ensures Stretch(a, a, b, lo, hi) == lo && Stretch(b, a, b, lo, hi) == hi
  {
    hide Fraction, OnTheWay;
    FractionOrders(u, v, a, b);
    OnTheWayOrders(Fraction(u, a, b), Fraction(v, a, b), lo, hi);
  }

  /** The finite values are not all the same. */
  ghost predicate Varies(values: Series) {
    exists i, j :: 0 <= i < |values| && 0 <= j < |values| && values[i].Some? && values[j].Some?
                   && values[i].value < values[j].value
  }

  lemma VariesExactly(values: Series)
    ensures Varies(values) <==> Finite(values) != [] && MinOf(Finite(values)) < MaxOf(Finite(values))
  {
    FiniteMembers(values);
    var finite := Finite(values);
    if finite != [] {
      Extremes(finite);
      var i :| 0 <= i < |values| && values[i] == Some(MinOf(finite));
      var j :| 0 <= j < |values| && values[j] == Some(MaxOf(finite));
      if MinOf(finite) < MaxOf(finite) { assert values[i].value < values[j].value; }
    }
  }

  /** The scaled series stays within the destination interval and keeps the order of the
      finite values, strictly so if the interval has any width. */
  lemma ScalingKeepsOrder(values: Series, lo: real, hi: real, i: nat, j: nat)
    requires lo <= hi && i < |values| && j < |values|
    ensures var r := ScaleSeries(values, lo, hi);
            && lo <= r[i] <= hi
            && (values[i].None? ==> r[i] == (lo + hi) / 2.0)
            && (values[i].Some? && values[j].Some? && values[i].value <= values[j].value ==> r[i] <= r[j])
            && (values[i].Some? && values[j].Some? && values[i].value < values[j].value && lo < hi ==> r[i] < r[j])
  {
    hide Stretch;
    VariesExactly(values);
    FiniteMembers(values);
    var finite := Finite(values);
    if finite != [] {
      Extremes(finite);
      var a, b := MinOf(finite), MaxOf(finite);
      if a < b {
        if values[i].Some? { StretchOrders(values[i].value, values[i].value, a, b, lo, hi); }
        if values[i].Some? && values[j].Some? && values[i].value <= values[j].value {
          StretchOrders(values[i].value, values[j].value, a, b, lo, hi);
        }
      } else if values[i].Some? && values[j].Some? {
        assert !(values[i].value < values[j].value);
      }
    }
  }

  /** Both ends of the interval are reached unless the finite values are all the same, and
      then everything lands in the middle. */
  lemma ScalingReachesBothEnds(values: Series, lo: real, hi: real)
    requires lo <= hi
    ensures var r := ScaleSeries(values, lo, hi);
            if Varies(values) then (exists i :: 0 <= i < |r| && r[i] == lo) && (exists i :: 0 <= i < |r| && r[i] == hi)
            else forall i | 0 <= i < |r| :: r[i] == (lo + hi) / 2.0
  {
    hide Stretch;
    VariesExactly(values);
    FiniteMembers(values);
    var finite, r := Finite(values), ScaleSeries(values, lo, hi);
    if finite != [] {
      Extremes(finite);
      var a, b := MinOf(finite), MaxOf(finite);
      if a < b {
        StretchOrders(a, b, a, b, lo, hi);
        var i :| 0 <= i < |values| && values[i] == Some(a);
        var j :| 0 <= j < |values| && values[j] == Some(b);
        assert r[i] == lo && r[j] == hi;
      }
    }
  }

  lemma StretchDifference(u: real, v: real, a: real, b: real, lo: real, hi: real)
    requires a < b
    ensures Stretch(u, a, b, lo, hi) - Stretch(v, a, b, lo, hi) == (u - v) * ((hi - lo) / (b - a))
  {
    var d, w := b - a, hi - lo;
    var p, q, c := (u - a) / d, (v - a) / d, w / d;
    assert p * d == u - a && q * d == v - a && c * d == w;
    assert p - q == (u - v) / d;
    assert p * w - q * w == (p - q) * w;
    assert ((u - v) / d) * w == (u - v) * c;
  }

  lemma Cross(x: real, y: real, c: real)
    ensures (x * c) * y == (y * c) * x
  {
  }

  /** Scaling is even: differences between scaled values are to one another as the differences
      between the values are. */
  lemma ScalingKeepsProportions(values: Series, lo: real, hi: real, i: nat, j: nat, k: nat, l: nat)
    requires lo <= hi && i < |values| && j < |values| && k < |values| && l < |values|
    requires values[i].Some? && values[j].Some? && values[k].Some? && values[l].Some?
    ensures var r := ScaleSeries(values, lo, hi);
            (r[i] - r[j]) * (values[k].value - values[l].value) == (r[k] - r[l]) * (values[i].value - values[j].value)
  {
    hide Stretch;
    VariesExactly(values);
    FiniteMembers(values);
    var finite, r := Finite(values), ScaleSeries(values, lo, hi);
    Extremes(finite);
    var a, b := MinOf(finite), MaxOf(finite);
    if a < b {
      StretchDifference(values[i].value, values[j].value, a, b, lo, hi);
      StretchDifference(values[k].value, values[l].value, a, b, lo, hi);
      Cross(values[i].value - values[j].value, values[k].value - values[l].value, (hi - lo) / (b - a));
    } else {
      assert r[i] - r[j] == 0.0 && r[k] - r[l] == 0.0;
    }
  }

  // ---- Walking a series ----

  datatype Sample = Sample(value: real, anomaly: bool)

  datatype Sensor = Sensor(name: string, unit: string, lo: real, hi: real)

  datatype Device = Device(id: string, sensors: seq<Sensor>)

  type Step = map<string, Sample>

  datatype Reading = Reading(deviceId: string, sensor: string, value: real, unit: string, anomaly: bool)

  /** The step that visit number `t` (from 0) of a device should emit. */
  function StepAt(loop: bool, n: nat, t: nat): nat
    requires n > 0
  {
    if loop then t % n else if t < n then t else n - 1
  }

  /** The cursor after `t` visits. */
  function CursorAt(loop: bool, n: nat, t: nat): nat
    requires n > 0
  {
    if t == 0 then 0 else StepAt(loop, n, t - 1) + 1
  }

  lemma CursorAdvances(loop: bool, n: nat, t: nat)
    requires n > 0
    ensures var c := CursorAt(loop, n, t);
            StepAt(loop, n, t) == if c >= n then (if loop then 0 else n - 1) else c
  {
    if loop && t > 0 { WrapAround(t - 1, n); }
  }

  lemma WrapAround(t: nat, n: nat)
    requires n > 0
    ensures (t + 1) % n == if t % n + 1 == n then 0 else t % n + 1
  {
    var q, r := t / n, t % n;
    assert t + 1 == q * n + r + 1;
    if r + 1 == n { Remainder(t + 1, q + 1, 0, n); } else { Remainder(t + 1, q, r + 1, n); }
  }

  lemma Remainder(x: int, q: int, r: int, n: int)
    requires n > 0 && x == q * n + r && 0 <= r < n
    ensures x % n == r
  {
    var p := x / n;
    assert (p - q) * n == r - x % n;
    assert p - q >= 1 ==> (p - q) * n >= n;
    assert p - q <= -1 ==> (p - q) * n <= -n;
  }

  /** How often a device id is listed. */
  function Visits(devices: seq<Device>, id: string): nat {
    if devices == [] then 0
    else Visits(devices[..|devices| - 1], id) + if devices[|devices| - 1].id == id then 1 else 0
  }

  function SamplesOf(d: Device, sensors: seq<Sensor>, step: Step, round: real -> real): seq<Reading> {
    if sensors == [] then []
    else
      var s := sensors[|sensors| - 1];
      SamplesOf(d, sensors[..|sensors| - 1], step, round)
      + if s.name in step then [Reading(d.id, s.name, round(step[s.name].value), s.unit, step[s.name].anomaly)] else []
  }

  /** What one call emits after the visits in `visited`. */
  function Emitted(devices: seq<Device>, series: map<string, seq<Step>>, loop: bool, visited: seq<Device>,
                   round: real -> real): seq<Reading>
  {
    if devices == [] then []
    else
      var last := |devices| - 1;
      Emitted(devices[..last], series, loop, visited, round)
      + FromDevice(devices[last], series, loop, Visits(visited + devices[..last], devices[last].id), round)
  }

  /** What visit number `t` of a device emits. */
  function FromDevice(d: Device, series: map<string, seq<Step>>, loop: bool, t: nat, round: real -> real): seq<Reading> {
    if d.id in series && series[d.id] != [] then
      SamplesOf(d, d.sensors, series[d.id][StepAt(loop, |series[d.id]|, t)], round)
    else []
  }

  class ReplayGenerator {
    const devices: seq<Device>
    const series: map<string, seq<Step>>
    const loop: bool
    var cursors: map<string, nat>
    ghost var visited: seq<Device>
    ghost var calls: nat

    /** Each cursor is where the visits of its device so far leave it. */
    ghost predicate Placed()
      reads this
    {
      CursorsAt(cursors, series, loop, visited)
    }

    /** Besides, a device listed once has been visited once in each call. */
    ghost predicate Valid()
      reads this
    {
      Placed() && (DistinctIds(devices) ==> VisitedTimes(visited, devices, calls))
    }

    constructor (devs: seq<Device>, ser: map<string, seq<Step>>, looping: bool)
      ensures Valid() && devices == devs && series == ser && loop == looping && visited == [] && calls == 0
    {
      devices, series, loop := devs, ser, looping;
      cursors := map id | id in ser :: 0;
      visited, calls := [], 0;
    }

    method Generate(round: real -> real) returns (readings: seq<Reading>)
      requires Valid()
      modifies this
      ensures Valid() && visited == old(visited) + devices && calls == old(calls) + 1
      ensures readings == Emitted(devices, series, loop, old(visited), round)
      ensures DistinctIds(devices) ==> readings == EmittedAt(devices, series, loop, old(calls), round)
    {
      if DistinctIds(devices) { KthCallEmitsKthStep(devices, series, loop, visited, calls, round); }
      hide *;
      readings := [];
      ghost var before := visited;
      NothingEmitted(devices, series, loop, before, round);
      for i := 0 to |devices|
        invariant visited == before + devices[..i] && Placed() && calls == old(calls)
        invariant readings == Emitted(devices[..i], series, loop, before, round)
      {
        EmittedNext(devices, i, series, loop, before, round);
        PrefixNext(before, devices, i);
        var here := Visit(devices[i], round);
        readings := readings + here;
      }
      WholePrefix(devices);
      calls := calls + 1;
    }

    /** The turn of one device: pick a step, move the cursor, report the step's samples. */
    method Visit(d: Device, round: real -> real) returns (readings: seq<Reading>)
      requires Placed()
      modifies `cursors, `visited
      ensures Placed() && visited == old(visited) + [d]
      ensures readings == FromDevice(d, series, loop, Visits(old(visited), d.id), round)
    {
      hide CursorsAt, Visits, SamplesOf, StepAt;
      readings := [];
      VisitDevice(cursors, series, loop, visited, d);
      if d.id in series && series[d.id] != [] {
        var steps, idx := series[d.id], cursors[d.id];
        ghost var was := cursors;
        if idx >= |steps| {
          if !loop {
            idx := |steps| - 1;
          } else {
            idx := 0;
            cursors := cursors[d.id := 0];
          }
        }
        var step := steps[idx];
        cursors := cursors[d.id := idx + 1];
        assert cursors == was[d.id := idx + 1];
        readings := Samples(d, step, round);
      }
      visited := visited + [d];
    }

    static method Samples(d: Device, step: Step, round: real -> real) returns (readings: seq<Reading>)
      ensures readings == SamplesOf(d, d.sensors, step, round)
    {
      readings := [];
      for i := 0 to |d.sensors|
        invariant readings == SamplesOf(d, d.sensors[..i], step, round)
      {
        var s := d.sensors[i];
        assert d.sensors[..i + 1][..i] == d.sensors[..i];
        if s.name in step {
          readings := readings + [Reading(d.id, s.name, round(step[s.name].value), s.unit, step[s.name].anomaly)];
        }
      }
      assert d.sensors[..|d.sensors|] == d.sensors;
    }
  }

  ghost predicate CursorsAt(cursors: map<string, nat>, series: map<string, seq<Step>>, loop: bool, visited: seq<Device>) {
    && cursors.Keys == series.Keys
    && forall id | id in series && series[id] != [] :: cursors[id] == CursorAt(loop, |series[id]|, Visits(visited, id))
  }

  /** The step that the next visit of a device takes, from its cursor. */
  function StepFrom(cursor: nat, loop: bool, n: nat): nat
    requires n > 0
  {
    if cursor >= n then (if loop then 0 else n - 1) else cursor
  }

  lemma VisitsNext(visited: seq<Device>, d: Device, id: string)
    ensures Visits(visited + [d], id) == Visits(visited, id) + if d.id == id then 1 else 0
  {
    assert (visited + [d])[..|visited|] == visited;
  }

  /** One device of a call: the step taken is the right one, and so is every cursor after. */
  lemma VisitDevice(cursors: map<string, nat>, series: map<string, seq<Step>>, loop: bool, visited: seq<Device>, d: Device)
    requires CursorsAt(cursors, series, loop, visited)
    ensures d.id in series ==> d.id in cursors
    ensures if d.id in series && series[d.id] != [] then
              var step := StepFrom(cursors[d.id], loop, |series[d.id]|);
              && step == StepAt(loop, |series[d.id]|, Visits(visited, d.id)) < |series[d.id]|
              && CursorsAt(cursors[d.id := step + 1], series, loop, visited + [d])
            else CursorsAt(cursors, series, loop, visited + [d])
  {
    hide StepAt, Visits;
    forall id ensures Visits(visited + [d], id) == Visits(visited, id) + if d.id == id then 1 else 0 {
      VisitsNext(visited, d, id);
    }
    if d.id in series && series[d.id] != [] {
      var t := Visits(visited, d.id);
      CursorAdvances(loop, |series[d.id]|, t);
      StepInRange(loop, |series[d.id]|, t);
      assert cursors[d.id := StepAt(loop, |series[d.id]|, t) + 1].Keys == series.Keys;
    }
  }

  lemma StepInRange(loop: bool, n: nat, t: nat)
    requires n > 0
    ensures StepAt(loop, n, t) < n
  {
  }

  lemma EmittedNext(devices: seq<Device>, i: nat, series: map<string, seq<Step>>, loop: bool, visited: seq<Device>,
                    round: real -> real)
    requires i < |devices|
    ensures Emitted(devices[..i + 1], series, loop, visited, round)
         == Emitted(devices[..i], series, loop, visited, round)
            + FromDevice(devices[i], series, loop, Visits(visited + devices[..i], devices[i].id), round)
  {
    hide FromDevice, Visits;
    assert devices[..i + 1][..i] == devices[..i];
  }

  lemma NothingEmitted(devices: seq<Device>, series: map<string, seq<Step>>, loop: bool, visited: seq<Device>,
                       round: real -> real)
    ensures Emitted(devices[..0], series, loop, visited, round) == [] && visited + devices[..0] == visited
  {
  }

  lemma PrefixNext(visited: seq<Device>, devices: seq<Device>, i: nat)
    requires i < |devices|
    ensures visited + devices[..i + 1] == (visited + devices[..i]) + [devices[i]]
  {
  }

  lemma WholePrefix(devices: seq<Device>)
    ensures devices[..|devices|] == devices
  {
  }

  lemma {:induction false} VisitsJoin(a: seq<Device>, b: seq<Device>, id: string)
    ensures Visits(a + b, id) == Visits(a, id) + Visits(b, id)
  {
    if b == [] {
      assert a + b == a;
    } else {
      var last := |b| - 1;
      VisitsJoin(a, b[..last], id);
      VisitsNext(a + b[..last], b[last], id);
      assert a + b == (a + b[..last]) + [b[last]];
    }
  }

  ghost predicate DistinctIds(devices: seq<Device>) {
    forall i, j | 0 <= i < j < |devices| :: devices[i].id != devices[j].id
  }

  lemma {:induction false} NotVisited(devices: seq<Device>, id: string)
    requires forall i | 0 <= i < |devices| :: devices[i].id != id
    ensures Visits(devices, id) == 0
  {
    if devices != [] { NotVisited(devices[..|devices| - 1], id); }
  }

  lemma {:induction false} VisitedOnce(devices: seq<Device>, i: nat)
    requires DistinctIds(devices) && i < |devices|
    ensures Visits(devices, devices[i].id) == 1
  {
    var last := |devices| - 1;
    if i < last {
      VisitedOnce(devices[..last], i);
    } else {
      NotVisited(devices[..last], devices[last].id);
    }
  }

  /** What the `k`-th call (from 0) emits: step k mod n of each device when looping, and
      step min(k, n - 1) when not. */
  function EmittedAt(devices: seq<Device>, series: map<string, seq<Step>>, loop: bool, k: nat, round: real -> real): seq<Reading> {
    if devices == [] then []
    else
      var d := devices[|devices| - 1];
      EmittedAt(devices[..|devices| - 1], series, loop, k, round)
      + FromDevice(d, series, loop, k, round)
  }

  /** Every listed device has been visited `k` times. */
  ghost predicate VisitedTimes(visited: seq<Device>, devices: seq<Device>, k: nat) {
    forall i | 0 <= i < |devices| :: Visits(visited, devices[i].id) == k
  }

  lemma VisitedOnceMore(visited: seq<Device>, devices: seq<Device>, k: nat)
    requires DistinctIds(devices) && VisitedTimes(visited, devices, k)
    ensures VisitedTimes(visited + devices, devices, k + 1)
  {
    hide Visits;
    forall i | 0 <= i < |devices| ensures Visits(visited + devices, devices[i].id) == k + 1 {
      VisitedOnce(devices, i);
      VisitsJoin(visited, devices, devices[i].id);
    }
  }

  lemma LastNotVisitedBefore(visited: seq<Device>, devices: seq<Device>)
    requires DistinctIds(devices) && devices != []
    ensures var last := |devices| - 1;
            Visits(visited + devices[..last], devices[last].id) == Visits(visited, devices[last].id)
  {
    hide Visits;
    var last := |devices| - 1;
    NotVisited(devices[..last], devices[last].id);
    VisitsJoin(visited, devices[..last], devices[last].id);
  }

  /** With every device listed once: the `k`-th call emits the `k`-th step of each, and
      leaves the generator ready for the next one. */
  lemma {:induction false} KthCallEmitsKthStep(devices: seq<Device>, series: map<string, seq<Step>>, loop: bool,
                                               visited: seq<Device>, k: nat, round: real -> real)
    requires DistinctIds(devices)
    requires VisitedTimes(visited, devices, k)
    ensures Emitted(devices, series, loop, visited, round) == EmittedAt(devices, series, loop, k, round)
    ensures VisitedTimes(visited + devices, devices, k + 1)
  {
    VisitedOnceMore(visited, devices, k);
    hide FromDevice, Visits;
    if devices != [] {
      KthCallEmitsKthStep(devices[..|devices| - 1], series, loop, visited, k, round);
      LastNotVisitedBefore(visited, devices);
    }
  }

  // ---- SECOM rows ----

  datatype SecomRow = SecomRow(features: seq<Option<real>>, anomaly: bool)

  predicate Has(row: SecomRow, col: nat) { col < |row.features| }

  function Cell(row: SecomRow, col: nat): Option<real> { if Has(row, col) then row.features[col] else None }

  /** The rows that are long enough to have the column. */
  function Present(rows: seq<SecomRow>, col: nat): seq<nat> {
    if rows == [] then []
    else
      var last := |rows| - 1;
      Present(rows[..last], col) + if Has(rows[last], col) then [last] else []
  }

  /** The listed row numbers are those of the rows with the column, each once and in order. */
  ghost predicate PresentOf(p: seq<nat>, rows: seq<SecomRow>, col: nat) {
    && |p| <= |rows|
    && (forall i | 0 <= i < |p| :: p[i] < |rows| && Has(rows[p[i]], col) && i <= p[i])
    && (forall i, j | 0 <= i < j < |p| :: p[i] < p[j])
    && (forall r | 0 <= r < |rows| && Has(rows[r], col) :: r in p)
  }

  lemma PresentNext(p: seq<nat>, rows: seq<SecomRow>, row: SecomRow, col: nat)
    requires PresentOf(p, rows, col)
    ensures PresentOf(p + if Has(row, col) then [|rows|] else [], rows + [row], col)
  {
    hide Has;
    var q := p + if Has(row, col) then [|rows|] else [];
    forall r | 0 <= r < |rows| + 1 && Has((rows + [row])[r], col) ensures r in q {
      if r < |rows| { assert Has(rows[r], col); }
    }
  }

  lemma {:induction false} PresentMembers(rows: seq<SecomRow>, col: nat)
    ensures PresentOf(Present(rows, col), rows, col)
  {
    if rows != [] {
      var last := |rows| - 1;
      PresentMembers(rows[..last], col);
      PresentNext(Present(rows[..last], col), rows[..last], rows[last], col);
      assert rows == rows[..last] + [rows[last]];
    }
  }

  /** The column as it is collected: short rows are skipped. */
  function Collected(rows: seq<SecomRow>, col: nat): Series {
    if rows == [] then []
    else
      var last := |rows| - 1;
      Collected(rows[..last], col) + if Has(rows[last], col) then [rows[last].features[col]] else []
  }

  lemma {:induction false} CollectedAt(rows: seq<SecomRow>, col: nat)
    ensures |Collected(rows, col)| == |Present(rows, col)|
    ensures forall i | 0 <= i < |Present(rows, col)| ::
              Present(rows, col)[i] < |rows| && Has(rows[Present(rows, col)[i]], col)
              && Collected(rows, col)[i] == rows[Present(rows, col)[i]].features[col]
  {
    PresentMembers(rows, col);
    if rows != [] {
      var last := |rows| - 1;
      CollectedAt(rows[..last], col);
      PresentMembers(rows[..last], col);
    }
  }

  method CollectColumn(rows: seq<SecomRow>, col: nat) returns (values: Series)
    ensures values == Collected(rows, col)
  {
    values := [];
    for r := 0 to |rows|
      invariant values == Collected(rows[..r], col)
    {
      var features := rows[r].features;
      assert rows[..r + 1][..r] == rows[..r];
      if col < |features| { values := values + [features[col]]; }
    }
    assert rows[..|rows|] == rows;
  }

  /** `SECOM_COLUMNS`. */
  function SecomColumn(name: string): Option<nat> {
    if name == "temperature" then Some(0)
    else if name == "pressure" then Some(1)
    else if name == "vibration" then Some(2)
    else if name == "flow" then Some(3)
    else if name == "current" then Some(4)
    else None
  }

  predicate Listed(sensors: seq<Sensor>, name: string) { exists i :: 0 <= i < |sensors| && sensors[i].name == name }

  /** The first sensor of that name. */
  function SensorNamed(sensors: seq<Sensor>, name: string): Sensor
    requires Listed(sensors, name)
  {
    if sensors[0].name == name then sensors[0] else SensorNamed(sensors[1..], name)
  }

  /** The columns a device collects, by sensor name. */
  function Raw(sensors: seq<Sensor>, rows: seq<SecomRow>): map<string, Series> {
    if sensors == [] then map[]
    else
      var before, name := Raw(sensors[..|sensors| - 1], rows), sensors[|sensors| - 1].name;
      var col := SecomColumn(name);
      if col.None? || Collected(rows, col.value) == [] then before else before[name := Collected(rows, col.value)]
  }

  lemma {:induction false} RawHas(sensors: seq<Sensor>, rows: seq<SecomRow>, name: string)
    ensures name in Raw(sensors, rows)
       <==> Listed(sensors, name) && SecomColumn(name).Some? && Collected(rows, SecomColumn(name).value) != []
    ensures name in Raw(sensors, rows) ==> Raw(sensors, rows)[name] == Collected(rows, SecomColumn(name).value)
  {
    if sensors != [] {
      hide SecomColumn, Collected;
      var before, last := sensors[..|sensors| - 1], sensors[|sensors| - 1];
      RawHas(before, rows, name);
      if Listed(before, name) { var i :| 0 <= i < |before| && before[i].name == name; assert sensors[i].name == name; }
      if last.name == name { assert sensors[|sensors| - 1].name == name; }
      if Listed(sensors, name) && last.name != name {
        var i :| 0 <= i < |sensors| && sensors[i].name == name;
        assert before[i].name == name;
      }
    }
  }

  /** What step `i` says about a sensor. */
  function Says(sensors: seq<Sensor>, rows: seq<SecomRow>, name: string, i: nat): Option<Sample>
    requires i < |rows|
  {
    var col := SecomColumn(name);
    if Listed(sensors, name) && col.Some? && i < |Collected(rows, col.value)| then
      var s := SensorNamed(sensors, name);
      Some(Sample(ScaleSeries(Collected(rows, col.value), s.lo, s.hi)[i], rows[i].anomaly))
    else None
  }

  /** The step says exactly that, about every sensor. */
  ghost predicate StepOf(step: Step, sensors: seq<Sensor>, rows: seq<SecomRow>, i: nat)
    requires i < |rows|
  {
    forall name: string :: Says(sensors, rows, name, i) == if name in step then Some(step[name]) else None
  }

  /** `_scale_secom_rows` for one device. */
  method ScaleSecomRows(sensors: seq<Sensor>, rows: seq<SecomRow>) returns (steps: seq<Step>)
    ensures |steps| == |rows| && forall i | 0 <= i < |steps| :: StepOf(steps[i], sensors, rows, i)
  {
    hide Says, Collected, SecomColumn;
    var raw: map<string, Series> := map[];
    for k := 0 to |sensors|
      invariant raw == Raw(sensors[..k], rows)
    {
      assert sensors[..k + 1][..k] == sensors[..k];
      var col := SecomColumn(sensors[k].name);
      if col.Some? {
        var values := CollectColumn(rows, col.value);
        if values != [] { raw := raw[sensors[k].name := values]; }
      }
    }
    assert sensors[..|sensors|] == sensors;
    forall name | name in raw ensures Listed(sensors, name) { RawHas(sensors, rows, name); }
    var scaled := map name | name in raw ::
      ScaleSeries(raw[name], SensorNamed(sensors, name).lo, SensorNamed(sensors, name).hi);
    steps := [];
    for i := 0 to |rows|
      invariant |steps| == i && forall j | 0 <= j < i :: StepOf(steps[j], sensors, rows, j)
    {
      var step := map name | name in scaled && i < |scaled[name]| :: Sample(scaled[name][i], rows[i].anomaly);
      forall name: string ensures Says(sensors, rows, name, i) == if name in step then Some(step[name]) else None {
        StepSays(sensors, rows, raw, name, i);
      }
      steps := steps + [step];
    }
  }

  lemma StepSays(sensors: seq<Sensor>, rows: seq<SecomRow>, raw: map<string, Series>, name: string, i: nat)
    requires i < |rows| && raw == Raw(sensors, rows)
    ensures name in raw ==> Listed(sensors, name)
    ensures Says(sensors, rows, name, i)
         == if name in raw && i < |raw[name]| then
              Some(Sample(ScaleSeries(raw[name], SensorNamed(sensors, name).lo, SensorNamed(sensors, name).hi)[i],
                          rows[i].anomaly))
            else None
  {
    hide Collected, SecomColumn, Raw, Listed, ScaleOne;
    RawHas(sensors, rows, name);
  }

  /** What a reader of the data set expects: the value of the row itself, scaled within its
      column, with the flag of that row; and nothing for a row without the column. */
  function Expected(sensors: seq<Sensor>, rows: seq<SecomRow>, name: string, col: nat, i: nat): Option<Sample>
    requires i < |rows| && Listed(sensors, name)
  {
    if Has(rows[i], col) then
      var s := SensorNamed(sensors, name);
      Some(Sample(ScaleOne(Finite(Collected(rows, col)), rows[i].features[col], s.lo, s.hi), rows[i].anomaly))
    else None
  }

  ghost predicate StepsAsExpected(sensors: seq<Sensor>, rows: seq<SecomRow>, name: string, col: nat)
    requires Listed(sensors, name)
  {
    forall i | 0 <= i < |rows| :: Says(sensors, rows, name, i) == Expected(sensors, rows, name, col, i)
  }

  /** Short rows come last. */
  ghost predicate ShortRowsLast(rows: seq<SecomRow>, col: nat) {
    forall i, j | 0 <= i < j < |rows| && Has(rows[j], col) :: Has(rows[i], col)
  }

  /** Where the value of step `i` comes from: the `i`-th row that has the column. */
  lemma SaysOf(sensors: seq<Sensor>, rows: seq<SecomRow>, name: string, col: nat, i: nat)
    requires i < |rows| && Listed(sensors, name) && SecomColumn(name) == Some(col)
    ensures Says(sensors, rows, name, i).Some? <==> i < |Present(rows, col)|
    ensures i < |Present(rows, col)| ==>
              && Present(rows, col)[i] < |rows| && Has(rows[Present(rows, col)[i]], col)
              && var s := SensorNamed(sensors, name);
                 Says(sensors, rows, name, i)
                 == Some(Sample(ScaleOne(Finite(Collected(rows, col)), rows[Present(rows, col)[i]].features[col], s.lo, s.hi),
                                rows[i].anomaly))
  {
    hide ScaleOne, Present, Collected, Finite, SensorNamed;
    CollectedAt(rows, col);
  }

  lemma PrefixRows(rows: seq<SecomRow>, col: nat, i: nat)
    requires ShortRowsLast(rows, col) && i < |rows|
    ensures Has(rows[i], col) <==> i < |Present(rows, col)|
    ensures i < |Present(rows, col)| ==> Present(rows, col)[i] == i
  {
    hide Has, Present;
    PresentMembers(rows, col);
    var p := Present(rows, col);
    if i < |p| { OwnRow(rows, col, i); }
    if Has(rows[i], col) {
      var k :| 0 <= k < |p| && p[k] == i;
      OwnRow(rows, col, k);
    }
  }

  /** In the steps made from a SECOM file every row shows its own value and its own anomaly
      flag exactly when the rows too short to have the column come last. */
  lemma StepsAsExpectedExactlyWhenShortRowsLast(sensors: seq<Sensor>, rows: seq<SecomRow>, name: string, col: nat)
    requires Listed(sensors, name) && SecomColumn(name) == Some(col)
    ensures StepsAsExpected(sensors, rows, name, col) <==> ShortRowsLast(rows, col)
  {
    hide Says, Present, ScaleOne, SecomColumn, SensorNamed, Has;
    forall i | 0 <= i < |rows| ensures Says(sensors, rows, name, i).Some? <==> i < |Present(rows, col)| {
      SaysOf(sensors, rows, name, col, i);
    }
    if StepsAsExpected(sensors, rows, name, col) {
      forall i | 0 <= i < |rows| ensures Has(rows[i], col) <==> i < |Present(rows, col)| {
        assert Says(sensors, rows, name, i) == Expected(sensors, rows, name, col, i);
      }
    }
    if ShortRowsLast(rows, col) {
      forall i | 0 <= i < |rows| ensures Says(sensors, rows, name, i) == Expected(sensors, rows, name, col, i) {
        PrefixRows(rows, col, i);
        SaysOf(sensors, rows, name, col, i);
      }
    }
  }

  lemma {:induction false} OneShortRow(rows: seq<SecomRow>, col: nat, m: nat)
    requires forall r | 0 <= r < |rows| :: Has(rows[r], col) <==> r != m
    ensures |Present(rows, col)| == |rows| - (if m < |rows| then 1 else 0)
    ensures forall i | 0 <= i < |Present(rows, col)| :: Present(rows, col)[i] == if i < m then i else i + 1
  {
    hide Has;
    if rows != [] { OneShortRow(rows[..|rows| - 1], col, m); }
  }

  /** One short row in the middle of a file: from there on, every step shows the next row's
      value with its own row's anomaly flag, and the last step shows nothing. */
  lemma OneShortRowShiftsTheRest(sensors: seq<Sensor>, rows: seq<SecomRow>, name: string, col: nat, m: nat, i: nat)
    requires Listed(sensors, name) && SecomColumn(name) == Some(col)
    requires m <= i < |rows| && forall r | 0 <= r < |rows| :: Has(rows[r], col) <==> r != m
    ensures var s := SensorNamed(sensors, name);
            Says(sensors, rows, name, i)
            == if i == |rows| - 1 then None
               else Some(Sample(ScaleOne(Finite(Collected(rows, col)), Cell(rows[i + 1], col), s.lo, s.hi),
                                rows[i].anomaly))
  {
    hide Says, ScaleOne, SecomColumn, SensorNamed, Present;
    OneShortRow(rows, col, m);
    SaysOf(sensors, rows, name, col, i);
  }

  lemma {:induction false} OwnRow(rows: seq<SecomRow>, col: nat, i: nat)
    requires ShortRowsLast(rows, col) && i < |Present(rows, col)|
    ensures Present(rows, col)[i] == i
  {
    PresentMembers(rows, col);
    var p := Present(rows, col);
    assert Has(rows[p[i]], col) && Has(rows[i], col);
    var k :| 0 <= k < |p| && p[k] == i;
    if k < i { OwnRow(rows, col, k); }
  }
}
