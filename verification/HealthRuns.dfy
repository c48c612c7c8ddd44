/** What the snapshot says about a sensor's health, against what its probes last did. */
module HealthRuns {
  import opened Options
  import opened Events
  import opened Requirements
  import opened Polling
  import opened PollingRuns

  predicate Healthy(s: Snapshot, sensor: Sensor) {
    Label(sensor) in s.sensorHealth && s.sensorHealth[Label(sensor)]
  }

  /** Emissions are published under their sensor's name; identifiers and times are whatever they are. */
  predicate Published(events: seq<Event>, emissions: seq<Emission>) {
    && |events| == |emissions|
    && forall i | 0 <= i < |events| :: events[i].kind == emissions[i].kind && events[i].source == Label(emissions[i].sensor)
  }

  /** The last word of a sensor decides; without one the verdict stays. */
  predicate LastWord(emissions: seq<Emission>, sensor: Sensor, before: bool) {
    if emissions == [] then before
    else
      var last := emissions[|emissions| - 1];
      if last.sensor == sensor then !last.kind.SensorFailure? else LastWord(emissions[..|emissions| - 1], sensor, before)
  }

  /** Failures name their own sensor, and integrity verdicts only their component. */
  predicate WellTagged(e: Emission) {
    && (e.kind.SensorFailure? ==> e.kind.sensor == Label(e.sensor))
    && (e.kind.Integrity? ==> e.kind.component == "configuration" || e.kind.component == "binary")
  }

  lemma LabelsAreNames(a: Sensor, b: Sensor)
    ensures Label(a) == Label(b) <==> a == b
    ensures Label(a) != "configuration" && Label(a) != "binary"
  {
    assert |Label(a)| != |"configuration"| && Label(a)[0] != "binary"[0];
    if |Label(a)| == |Label(b)| && a != b {
      assert Label(a)[0] != Label(b)[0] || Label(a)[2] != Label(b)[2];
    }
  }

  lemma HealthStep(s: Snapshot, event: Event, e: Emission, sensor: Sensor)
    requires event.kind == e.kind && event.source == Label(e.sensor) && WellTagged(e)
    ensures Healthy(ApplyEvent(s, event), sensor) <==> if e.sensor == sensor then !e.kind.SensorFailure? else Healthy(s, sensor)
  {
    LabelsAreNames(sensor, e.sensor);
  }

  lemma {:induction false} ReplayHealth(s: Snapshot, events: seq<Event>, emissions: seq<Emission>, sensor: Sensor)
    requires Published(events, emissions) && forall e | e in emissions :: WellTagged(e)
    ensures Healthy(Replay(s, events), sensor) <==> LastWord(emissions, sensor, Healthy(s, sensor))
  {
    if events != [] {
      var n := |events| - 1;
      assert Published(events[..n], emissions[..n]);
      assert forall e | e in emissions[..n] :: e in emissions;
      ReplayHealth(s, events[..n], emissions[..n], sensor);
      assert emissions[n] in emissions;
      HealthStep(Replay(s, events[..n]), events[n], emissions[n], sensor);
    }
  }

  lemma {:induction false} LastWordConcat(a: seq<Emission>, b: seq<Emission>, sensor: Sensor, before: bool)
    ensures LastWord(a + b, sensor, before) == LastWord(b, sensor, LastWord(a, sensor, before))
  {
    if b == [] {
      assert a + b == a;
    } else {
      assert (a + b)[..|a + b| - 1] == a + b[..|b| - 1];
      LastWordConcat(a, b[..|b| - 1], sensor, before);
    }
  }

  lemma {:induction false} SilentOthers(emissions: seq<Emission>, sensor: Sensor, before: bool)
    requires forall e | e in emissions :: e.sensor != sensor
    ensures LastWord(emissions, sensor, before) == before
  {
    if emissions != [] {
      SilentOthers(emissions[..|emissions| - 1], sensor, before);
    }
  }

  // ---------------------------------------------------------------- when a successful probe speaks

  /** A successful probe found what the polling state already holds; the first cycle counts as a change, unless a
      collection is empty. */
  predicate Unchanged(sensor: Sensor, st: PollState, probes: Probes, first: bool)
    requires ProbeOk(sensor, probes)
  {
    match sensor
    case WifiSensor => !first && st.wifi == probes.wifi
    case NetworkSensor => !first && st.network == probes.network
    case UsbSensor => if first then probes.usb.value == {} else probes.usb.value == st.usb
    case MountSensor => if first then probes.mounts.value.Keys == {} else probes.mounts.value.Keys == st.mounts.Keys
    case ProcessSensor => forall n | n in probes.processes.value :: !HasChanged(first, st.processes, probes.processes.value, n)
    case ServiceSensor => forall n | n in probes.services.value :: !HasChanged(first, st.services, probes.services.value, n)
    case PortSensor => !first && probes.ports.value == st.ports
    case SessionSensor => !first && st.session == probes.session
    case PowerSensor => !first && st.power == probes.power
    case IntegritySensor => true
  }

  lemma WalkEmpty(walk: Walk)
    requires Complete(walk)
    ensures forall s :: walk.paths(s) == [] <==> s == {}
    ensures forall s :: walk.devices(s) == [] <==> s == {}
    ensures forall s :: walk.ports(s) == [] <==> s == {}
  {
    forall s ensures walk.paths(s) == [] <==> s == {} {
      if walk.paths(s) != [] { assert walk.paths(s)[0] in s; }
      if s != {} { var x :| x in s; assert x in walk.paths(s); }
    }
    forall s ensures walk.devices(s) == [] <==> s == {} {
      if walk.devices(s) != [] { assert walk.devices(s)[0] in s; }
      if s != {} { var x :| x in s; assert x in walk.devices(s); }
    }
    forall s ensures walk.ports(s) == [] <==> s == {} {
      if walk.ports(s) != [] { assert walk.ports(s)[0] in s; }
      if s != {} { var x :| x in s; assert x in walk.ports(s); }
    }
  }

  lemma NamesSpeak(walk: Walk, first: bool, was: map<string, bool>, v: map<string, bool>)
    requires Complete(walk)
    ensures ChangedNames(walk, first, was, v) == [] <==> forall n | n in v :: !HasChanged(first, was, v, n)
  {
    ChangedNamesExact(walk, first, was, v);
    if ChangedNames(walk, first, was, v) != [] {
      assert ChangedNames(walk, first, was, v)[0] in ChangedNames(walk, first, was, v);
    }
  }

  lemma MissingNothing(walk: Walk, table: MountTable, other: MountTable)
    requires Complete(walk)
    ensures Missing(walk, table, other) == [] <==> table.Keys <= other.Keys
  {
    MissingExact(walk, table, other);
    if Missing(walk, table, other) != [] {
      assert Missing(walk, table, other)[0] in Elements(Missing(walk, table, other));
    } else {
      assert Elements(Missing(walk, table, other)) == {};
      forall p | p in table.Keys ensures p in other.Keys {
        assert p !in table.Keys - other.Keys;
      }
    }
  }

  lemma MountsSpeak(st: PollState, needs: Needs, probes: Probes, first: bool, walk: Walk)
    requires Complete(walk) && needs.mounts && probes.mounts.Some?
    ensures PollMounts(st, needs, probes, first, walk).events == [] <==> Unchanged(MountSensor, st, probes, first)
  {
    WalkEmpty(walk);
    MissingNothing(walk, probes.mounts.value, st.mounts);
    MissingNothing(walk, st.mounts, probes.mounts.value);
  }

  lemma CollectionSpeaks(sensor: Sensor, st: PollState, needs: Needs, probes: Probes, first: bool, walk: Walk)
    requires Complete(walk) && Attempted(sensor, needs) && ProbeOk(sensor, probes) && Collects(sensor)
    ensures PollSensor(sensor, st, needs, probes, first, walk).events == [] <==> Unchanged(sensor, st, probes, first)
  {
    WalkEmpty(walk);
    match sensor
    case UsbSensor => DifferencesEmpty(probes.usb.value, st.usb);
    case MountSensor => MountsSpeak(st, needs, probes, first, walk);
    case ProcessSensor => NamesSpeak(walk, first, st.processes, probes.processes.value);
    case ServiceSensor => NamesSpeak(walk, first, st.services, probes.services.value);
    case PortSensor => DifferencesEmpty(probes.ports.value, st.ports);
  }

  lemma DifferencesEmpty<T>(a: set<T>, b: set<T>)
    ensures a - b == {} && b - a == {} <==> a == b
    ensures (a - b) + (b - a) == {} <==> a == b
  {
    if a - b == {} && b - a == {} {
      assert forall x :: x in a <==> x in b by {
        forall x ensures x in a <==> x in b { assert x !in a - b && x !in b - a; }
      }
    }
    if (a - b) + (b - a) == {} {
      assert forall x :: x in a <==> x in b by {
        forall x ensures x in a <==> x in b { assert x !in (a - b) + (b - a); }
      }
    }
  }

  lemma ScalarSpeaks(sensor: Sensor, st: PollState, needs: Needs, probes: Probes, first: bool, walk: Walk)
    requires Attempted(sensor, needs) && ProbeOk(sensor, probes) && !Collects(sensor) && !sensor.IntegritySensor?
    ensures PollSensor(sensor, st, needs, probes, first, walk).events == [] <==> Unchanged(sensor, st, probes, first)
  {
  }

  /** The verdict on one sensor after it has been polled. */
  predicate Verdict(sensor: Sensor, st: PollState, probes: Probes, first: bool, before: bool) {
    if ProbeOk(sensor, probes) then before || !Unchanged(sensor, st, probes, first) else before && sensor in st.failed
  }

  lemma {:induction false} AllGood(emissions: seq<Emission>, sensor: Sensor, before: bool)
    requires forall e | e in emissions :: e.sensor == sensor && !e.kind.SensorFailure?
    ensures LastWord(emissions, sensor, before) == (before || emissions != [])
  {
  }

  lemma OwnStepVerdict(sensor: Sensor, st: PollState, needs: Needs, probes: Probes, first: bool, walk: Walk, before: bool)
    requires Complete(walk) && Attempted(sensor, needs) && !sensor.IntegritySensor?
    ensures LastWord(PollSensor(sensor, st, needs, probes, first, walk).events, sensor, before) ==
            Verdict(sensor, st, probes, first, before)
  {
    if ProbeOk(sensor, probes) {
      EventsCarryTheirSensor(sensor, st, needs, probes, first, walk);
      SuccessReportsNothing(sensor, st, needs, probes, first, walk);
      AllGood(PollSensor(sensor, st, needs, probes, first, walk).events, sensor, before);
      if Collects(sensor) {
        CollectionSpeaks(sensor, st, needs, probes, first, walk);
      } else {
        ScalarSpeaks(sensor, st, needs, probes, first, walk);
      }
    } else {
      FailureStep(sensor, st, needs, probes, first, walk);
    }
  }

  // ---------------------------------------------------------------- cycles

  /** Two polling states that agree on what one sensor left in them. */
  predicate SameFor(sensor: Sensor, a: PollState, b: PollState) {
    && (sensor in a.failed <==> sensor in b.failed)
    && match sensor
       case WifiSensor => a.wifi == b.wifi
       case NetworkSensor => a.network == b.network
       case UsbSensor => a.usb == b.usb
       case MountSensor => a.mounts == b.mounts
       case ProcessSensor => a.processes == b.processes
       case ServiceSensor => a.services == b.services
       case PortSensor => a.ports == b.ports
       case SessionSensor => a.session == b.session
       case PowerSensor => a.power == b.power
       case IntegritySensor => a.configHash == b.configHash && a.binaryHash == b.binaryHash
  }

  lemma OthersKeep(polled: Sensor, st: PollState, needs: Needs, probes: Probes, sensor: Sensor)
    requires polled != sensor
    ensures SameFor(sensor, NextState(polled, st, needs, probes), st)
  {
    if Attempted(polled, needs) && ProbeOk(polled, probes) {
      OthersKeepOnSuccess(polled, st, needs, probes, sensor);
    }
  }

  lemma OthersKeepOnSuccess(polled: Sensor, st: PollState, needs: Needs, probes: Probes, sensor: Sensor)
    requires polled != sensor && Attempted(polled, needs) && ProbeOk(polled, probes)
    ensures SameFor(sensor, NextState(polled, st, needs, probes), st)
  {
    match polled {
      case WifiSensor =>
      case NetworkSensor =>
      case UsbSensor =>
      case MountSensor =>
      case ProcessSensor =>
      case ServiceSensor =>
      case PortSensor =>
      case SessionSensor =>
      case PowerSensor =>
      case IntegritySensor =>
    }
  }

  lemma SameVerdict(sensor: Sensor, a: PollState, b: PollState, probes: Probes, first: bool, before: bool)
    requires SameFor(sensor, a, b)
    ensures Verdict(sensor, a, probes, first, before) == Verdict(sensor, b, probes, first, before)
  {
  }

  lemma {:induction false} PolledVerdict(sensors: seq<Sensor>, st: PollState, needs: Needs, probes: Probes, first: bool, walk: Walk,
                                         sensor: Sensor, before: bool)
    requires Distinct(sensors) && Complete(walk) && Attempted(sensor, needs) && !sensor.IntegritySensor?
    ensures var step := PollAll(sensors, st, needs, probes, first, walk);
            && LastWord(step.events, sensor, before) ==
               (if sensor in sensors then Verdict(sensor, st, probes, first, before) else before)
            && (sensor !in sensors ==> SameFor(sensor, step.state, st))
  {
    if sensors != [] {
      var front, last := sensors[..|sensors| - 1], sensors[|sensors| - 1];
      var mid := PollAll(front, st, needs, probes, first, walk);
      var step := PollSensor(last, mid.state, needs, probes, first, walk);
      PolledVerdict(front, st, needs, probes, first, walk, sensor, before);
      LastWordConcat(mid.events, step.events, sensor, before);
      MembersOfLast(sensors);
      if last == sensor {
        assert last !in front;
        OwnStepVerdict(sensor, mid.state, needs, probes, first, walk, before);
        SameVerdict(sensor, mid.state, st, probes, first, before);
      } else {
        EventsCarryTheirSensor(last, mid.state, needs, probes, first, walk);
        SilentOthers(step.events, sensor, LastWord(mid.events, sensor, before));
        StepState(last, mid.state, needs, probes, first, walk);
        OthersKeep(last, mid.state, needs, probes, sensor);
      }
    }
  }

  lemma {:induction false} EmissionsWellTagged(sensors: seq<Sensor>, st: PollState, needs: Needs, probes: Probes, first: bool, walk: Walk)
    ensures forall e | e in PollAll(sensors, st, needs, probes, first, walk).events :: WellTagged(e)
  {
    if sensors != [] {
      var front := sensors[..|sensors| - 1];
      EmissionsWellTagged(front, st, needs, probes, first, walk);
      StepWellTagged(sensors[|sensors| - 1], PollAll(front, st, needs, probes, first, walk).state, needs, probes, first, walk);
    }
  }

  lemma StepWellTagged(sensor: Sensor, st: PollState, needs: Needs, probes: Probes, first: bool, walk: Walk)
    ensures forall e | e in PollSensor(sensor, st, needs, probes, first, walk).events :: WellTagged(e)
  {
    if sensor.IntegritySensor? {
      IntegrityWellTagged(st, needs, probes);
    } else if !Attempted(sensor, needs) {
      IdleStep(sensor, st, needs, probes, first, walk);
    } else if !ProbeOk(sensor, probes) {
      FailureStep(sensor, st, needs, probes, first, walk);
    } else {
      SuccessWellTagged(sensor, st, needs, probes, first, walk);
    }
  }

  lemma IntegrityWellTagged(st: PollState, needs: Needs, probes: Probes)
    ensures forall e | e in PollIntegrity(st, needs, probes).events :: WellTagged(e)
  {
  }

  lemma SuccessWellTagged(sensor: Sensor, st: PollState, needs: Needs, probes: Probes, first: bool, walk: Walk)
    requires Attempted(sensor, needs) && ProbeOk(sensor, probes) && !sensor.IntegritySensor?
    ensures forall e | e in PollSensor(sensor, st, needs, probes, first, walk).events :: WellTagged(e)
  {
  }

  /** The health of a sensor after a cycle: a failing probe is unhealthy once it has been reported, and a working one is
      called healthy exactly when it was so before or its value has changed. */
  lemma HealthAfterCycle(st: PollState, needs: Needs, probes: Probes, walk: Walk, s: Snapshot, events: seq<Event>, sensor: Sensor)
    requires Complete(walk) && Attempted(sensor, needs) && !sensor.IntegritySensor?
    requires Published(events, Cycle(st, needs, probes, walk).events)
    ensures Healthy(Replay(s, events), sensor) <==>
            if ProbeOk(sensor, probes) then Healthy(s, sensor) || !Unchanged(sensor, st, probes, !st.initialized)
            else Healthy(s, sensor) && sensor in st.failed
  {
    OrderIsDistinct();
    EmissionsWellTagged(ORDER, st, needs, probes, !st.initialized, walk);
    ReplayHealth(s, events, Cycle(st, needs, probes, walk).events, sensor);
    PolledVerdict(ORDER, st, needs, probes, !st.initialized, walk, sensor, Healthy(s, sensor));
  }

  // ---------------------------------------------------------------- runs

  /** Everything the polling task has emitted about its sensors. */
  function Emitted(needs: Needs, steps: seq<PollStep>): seq<Emission> {
    if steps == [] then []
    else
      var before := steps[..|steps| - 1];
      match steps[|steps| - 1]
      case Poll(probes, walk) => Emitted(needs, before) + Cycle(StateAfter(needs, before), needs, probes, walk).events
      case _ => Emitted(needs, before)
  }

  lemma {:induction false} FailingIsUnhealthy(needs: Needs, steps: seq<PollStep>, sensor: Sensor)
    requires Proper(needs, steps) && Attempted(sensor, needs) && !sensor.IntegritySensor?
    ensures sensor in StateAfter(needs, steps).failed ==> !LastWord(Emitted(needs, steps), sensor, false)
    ensures forall e | e in Emitted(needs, steps) :: WellTagged(e)
  {
    if steps != [] {
      var before := steps[..|steps| - 1];
      FailingIsUnhealthy(needs, before, sensor);
      match steps[|steps| - 1]
      case Poll(probes, walk) =>
        var st := StateAfter(needs, before);
        var verdict := LastWord(Emitted(needs, before), sensor, false);
        OrderIsDistinct();
        PolledVerdict(ORDER, st, needs, probes, !st.initialized, walk, sensor, verdict);
        PollReports(ORDER, st, needs, probes, !st.initialized, walk, sensor);
        EmissionsWellTagged(ORDER, st, needs, probes, !st.initialized, walk);
        LastWordConcat(Emitted(needs, before), Cycle(st, needs, probes, walk).events, sensor, false);
      case _ =>
    }
  }

  /** The probe of step `k` worked and found something other than what was held. */
  predicate ChangedAt(needs: Needs, steps: seq<PollStep>, k: nat, sensor: Sensor)
    requires k < |steps|
  {
    && steps[k].Poll? && ProbeOk(sensor, steps[k].probes)
    && var st := StateAfter(needs, steps[..k]); !Unchanged(sensor, st, steps[k].probes, !st.initialized)
  }

  ghost predicate WorksAfter(steps: seq<PollStep>, k: nat, sensor: Sensor) {
    forall m | k < m < |steps| && steps[m].Poll? :: ProbeOk(sensor, steps[m].probes)
  }

  /** A change was found at `k`, and every later probe worked. */
  ghost predicate VouchedAt(needs: Needs, steps: seq<PollStep>, k: nat, sensor: Sensor) {
    k < |steps| && ChangedAt(needs, steps, k, sensor) && WorksAfter(steps, k, sensor)
  }

  lemma VouchedStep(needs: Needs, steps: seq<PollStep>, sensor: Sensor)
    requires steps != []
    ensures var n := |steps| - 1;
            (exists k: nat :: VouchedAt(needs, steps, k, sensor)) <==>
            || ChangedAt(needs, steps, n, sensor)
            || ((exists k: nat :: VouchedAt(needs, steps[..n], k, sensor)) &&
                (steps[n].Poll? ==> ProbeOk(sensor, steps[n].probes)))
  {
    var n := |steps| - 1;
    forall k: nat | k < n
      ensures VouchedAt(needs, steps, k, sensor) <==>
              VouchedAt(needs, steps[..n], k, sensor) && (steps[n].Poll? ==> ProbeOk(sensor, steps[n].probes))
    {
      assert steps[..n][..k] == steps[..k];
      assert forall m | 0 <= m < n :: steps[..n][m] == steps[m];
      if VouchedAt(needs, steps, k, sensor) {
        assert WorksAfter(steps[..n], k, sensor);
      }
    }
    if ChangedAt(needs, steps, n, sensor) {
      assert VouchedAt(needs, steps, n, sensor);
    }
    if k: nat :| VouchedAt(needs, steps[..n], k, sensor) && (steps[n].Poll? ==> ProbeOk(sensor, steps[n].probes)) {
      assert VouchedAt(needs, steps, k, sensor);
    }
  }

  lemma CycleVerdict(needs: Needs, steps: seq<PollStep>, sensor: Sensor)
    requires Proper(needs, steps) && Attempted(sensor, needs) && !sensor.IntegritySensor?
    requires steps != [] && steps[|steps| - 1].Poll?
    ensures var before, last := steps[..|steps| - 1], steps[|steps| - 1];
            var st := StateAfter(needs, before);
            LastWord(Emitted(needs, steps), sensor, false) ==
            if ProbeOk(sensor, last.probes)
            then LastWord(Emitted(needs, before), sensor, false) || !Unchanged(sensor, st, last.probes, !st.initialized)
            else false
  {
    var before, last := steps[..|steps| - 1], steps[|steps| - 1];
    var st := StateAfter(needs, before);
    OrderIsDistinct();
    FailingIsUnhealthy(needs, before, sensor);
    PolledVerdict(ORDER, st, needs, last.probes, !st.initialized, last.walk, sensor, LastWord(Emitted(needs, before), sensor, false));
    LastWordConcat(Emitted(needs, before), Cycle(st, needs, last.probes, last.walk).events, sensor, false);
  }

  lemma {:induction false} VerdictOfRun(needs: Needs, steps: seq<PollStep>, sensor: Sensor)
    requires Proper(needs, steps) && Attempted(sensor, needs) && !sensor.IntegritySensor?
    ensures LastWord(Emitted(needs, steps), sensor, false) <==> exists k: nat :: VouchedAt(needs, steps, k, sensor)
  {
    if steps != [] {
      var n := |steps| - 1;
      VerdictOfRun(needs, steps[..n], sensor);
      VouchedStep(needs, steps, sensor);
      if steps[n].Poll? {
        CycleVerdict(needs, steps, sensor);
      }
    }
  }

  /** After any run, with any failures and resets, the snapshot calls a sensor healthy exactly when some probe found a
      change and every probe of that sensor since has worked. */
  lemma HealthExact(needs: Needs, steps: seq<PollStep>, sensor: Sensor, s: Snapshot, events: seq<Event>)
    requires Proper(needs, steps) && Attempted(sensor, needs) && !sensor.IntegritySensor?
    requires !Healthy(s, sensor) && Published(events, Emitted(needs, steps))
    ensures Healthy(Replay(s, events), sensor) <==> exists k: nat :: VouchedAt(needs, steps, k, sensor)
  {
    FailingIsUnhealthy(needs, steps, sensor);
    ReplayHealth(s, events, Emitted(needs, steps), sensor);
    VerdictOfRun(needs, steps, sensor);
  }

  lemma HeldAfterFailure(needs: Needs, probes: Probes, failing: Probes, walk: Walk)
    requires needs.wifi && probes.wifi.Some? && failing.wifi.None?
    ensures var st := StateAfter(needs, [Poll(probes, walk)] + [Poll(failing, walk)]);
            st.initialized && st.wifi == probes.wifi
  {
    var one, two := [Poll(probes, walk)], [Poll(probes, walk)] + [Poll(failing, walk)];
    assert one[..0] == [] && two[..1] == one;
    assert ProbesSince(one) == [] + [probes] && ProbesSince(two) == [probes] + [failing];
    assert ([probes] + [failing])[..1] == [probes] && [probes][..0] == [];
    RunRemembers(needs, two);
    assert LastOk(PickWifi, [probes]) == probes.wifi;
    assert LastOk(PickWifi, [probes] + [failing]) == probes.wifi;
  }

  /** A Wi-Fi probe that works, fails and works again with the same result leaves the sensor marked unhealthy. */
  lemma RecoveryGoesUnnoticed(needs: Needs, probes: Probes, walk: Walk, s: Snapshot, events: seq<Event>)
    requires needs.wifi && probes.wifi.Some? && Faithful(probes, needs) && Complete(walk) && !Healthy(s, WifiSensor)
    requires var steps := [Poll(probes, walk), Poll(probes.(wifi := None), walk), Poll(probes, walk)];
             Published(events, Emitted(needs, steps))
    ensures !Healthy(Replay(s, events), WifiSensor)
  {
    var failing := probes.(wifi := None);
    var steps := [Poll(probes, walk), Poll(failing, walk), Poll(probes, walk)];
    assert !ProbeOk(WifiSensor, steps[1].probes);
    HeldAfterFailure(needs, probes, failing, walk);
    assert steps[..2] == [Poll(probes, walk)] + [Poll(failing, walk)];
    forall k: nat ensures !VouchedAt(needs, steps, k, WifiSensor) {
      if k == 2 {
        assert !ChangedAt(needs, steps, 2, WifiSensor);
      }
    }
    HealthExact(needs, steps, WifiSensor, s, events);
  }
}
