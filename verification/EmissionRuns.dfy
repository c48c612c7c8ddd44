/** Which events a polling cycle emits, sensor by sensor, said of the probes and the values held before. */
module EmissionRuns {
  import opened Options
  import opened Config
  import opened Events
  import opened Requirements
  import opened Polling
  import opened PollingRuns
  import opened HealthRuns

  // ---------------------------------------------------------------- a cycle is its sensors, each on its own

  lemma SameEvents(sensor: Sensor, a: PollState, b: PollState, needs: Needs, probes: Probes, first: bool, walk: Walk)
    requires SameFor(sensor, a, b)
    ensures PollSensor(sensor, a, needs, probes, first, walk).events == PollSensor(sensor, b, needs, probes, first, walk).events
  {
  }

  lemma SameNext(sensor: Sensor, a: PollState, b: PollState, needs: Needs, probes: Probes)
    requires SameFor(sensor, a, b)
    ensures SameFor(sensor, NextState(sensor, a, needs, probes), NextState(sensor, b, needs, probes))
  {
    if Attempted(sensor, needs) && ProbeOk(sensor, probes) {
      if Collects(sensor) {
        SameNextCollection(sensor, a, b, needs, probes);
      } else {
        SameNextScalar(sensor, a, b, needs, probes);
      }
    }
  }

  lemma SameNextCollection(sensor: Sensor, a: PollState, b: PollState, needs: Needs, probes: Probes)
    requires SameFor(sensor, a, b) && Attempted(sensor, needs) && ProbeOk(sensor, probes) && Collects(sensor)
    ensures SameFor(sensor, NextState(sensor, a, needs, probes), NextState(sensor, b, needs, probes))
  {
  }

  lemma SameNextScalar(sensor: Sensor, a: PollState, b: PollState, needs: Needs, probes: Probes)
    requires SameFor(sensor, a, b) && Attempted(sensor, needs) && ProbeOk(sensor, probes) && !Collects(sensor)
    ensures SameFor(sensor, NextState(sensor, a, needs, probes), NextState(sensor, b, needs, probes))
  {
  }

  lemma {:induction false} FieldAfter(sensors: seq<Sensor>, st: PollState, needs: Needs, probes: Probes, first: bool, walk: Walk, sensor: Sensor)
    requires Distinct(sensors)
    ensures SameFor(sensor, PollAll(sensors, st, needs, probes, first, walk).state,
                    if sensor in sensors then NextState(sensor, st, needs, probes) else st)
  {
    if sensors != [] {
      var front, last := sensors[..|sensors| - 1], sensors[|sensors| - 1];
      var mid := PollAll(front, st, needs, probes, first, walk).state;
      FieldAfter(front, st, needs, probes, first, walk, sensor);
      MembersOfLast(sensors);
      StepState(last, mid, needs, probes, first, walk);
      if last == sensor {
        assert last !in front;
        SameNext(sensor, mid, st, needs, probes);
      } else {
        OthersKeep(last, mid, needs, probes, sensor);
      }
    }
  }

  lemma {:induction false} PolledEmissions(sensors: seq<Sensor>, st: PollState, needs: Needs, probes: Probes, first: bool, walk: Walk,
                                           e: Emission)
    requires Distinct(sensors)
    ensures e in PollAll(sensors, st, needs, probes, first, walk).events <==>
            e.sensor in sensors && e in PollSensor(e.sensor, st, needs, probes, first, walk).events
  {
    if sensors != [] {
      var front, last := sensors[..|sensors| - 1], sensors[|sensors| - 1];
      var mid := PollAll(front, st, needs, probes, first, walk);
      PolledEmissions(front, st, needs, probes, first, walk, e);
      MembersOfLast(sensors);
      EventsCarryTheirSensor(last, mid.state, needs, probes, first, walk);
      if last == e.sensor {
        assert last !in front;
        FieldAfter(front, st, needs, probes, first, walk, last);
        SameEvents(last, mid.state, st, needs, probes, first, walk);
      }
    }
  }

  /** A cycle emits exactly what each sensor emits against the state before the cycle. */
  lemma CycleEmits(st: PollState, needs: Needs, probes: Probes, walk: Walk, e: Emission)
    ensures e in Cycle(st, needs, probes, walk).events <==> e in PollSensor(e.sensor, st, needs, probes, !st.initialized, walk).events
  {
    OrderIsDistinct();
    PolledEmissions(ORDER, st, needs, probes, !st.initialized, walk, e);
  }

  /** The place of each sensor in a cycle. */
  function Place(sensor: Sensor): nat {
    match sensor
    case WifiSensor => 0 case NetworkSensor => 1 case UsbSensor => 2 case MountSensor => 3 case ProcessSensor => 4
    case ServiceSensor => 5 case PortSensor => 6 case SessionSensor => 7 case PowerSensor => 8 case IntegritySensor => 9
  }

  ghost predicate InOrder(events: seq<Emission>, n: nat) {
    && (forall i | 0 <= i < |events| :: Place(events[i].sensor) < n)
    && (forall i, j | 0 <= i < j < |events| :: Place(events[i].sensor) <= Place(events[j].sensor))
  }

  lemma OneMoreInOrder(before: seq<Emission>, more: seq<Emission>, n: nat)
    requires InOrder(before, n) && forall e | e in more :: Place(e.sensor) == n
    ensures InOrder(before + more, n + 1)
  {
    assert forall i | 0 <= i < |more| :: more[i] in more;
  }

  lemma {:induction false} PolledInOrder(n: nat, st: PollState, needs: Needs, probes: Probes, first: bool, walk: Walk)
    requires n <= |ORDER|
    ensures InOrder(PollAll(ORDER[..n], st, needs, probes, first, walk).events, n)
  {
    if n > 0 {
      assert ORDER[..n][..n - 1] == ORDER[..n - 1] && ORDER[..n][n - 1] == ORDER[n - 1];
      PolledInOrder(n - 1, st, needs, probes, first, walk);
      var before := PollAll(ORDER[..n - 1], st, needs, probes, first, walk);
      var step := PollSensor(ORDER[n - 1], before.state, needs, probes, first, walk);
      EventsCarryTheirSensor(ORDER[n - 1], before.state, needs, probes, first, walk);
      PlaceInOrder(n - 1);
      OneMoreInOrder(before.events, step.events, n - 1);
      assert PollAll(ORDER[..n], st, needs, probes, first, walk).events == before.events + step.events;
    }
  }

  lemma PlaceInOrder(n: nat)
    requires n < |ORDER|
    ensures Place(ORDER[n]) == n
  {
  }

  /** The events of a cycle come sensor by sensor: Wi-Fi, network, USB, mounts, processes, services, ports, session, power,
      integrity. */
  lemma CycleInOrder(st: PollState, needs: Needs, probes: Probes, walk: Walk)
    ensures InOrder(Cycle(st, needs, probes, walk).events, 10)
  {
    assert ORDER[..|ORDER|] == ORDER;
    PolledInOrder(|ORDER|, st, needs, probes, !st.initialized, walk);
  }

  lemma TaggedMember(sensor: Sensor, kinds: seq<EventKind>, kind: EventKind)
    ensures Emission(sensor, kind) in Tagged(sensor, kinds) <==> kind in kinds
  {
    if kind in kinds {
      var i :| 0 <= i < |kinds| && kinds[i] == kind;
      assert Tagged(sensor, kinds)[i] == Emission(sensor, kind);
    }
  }

  lemma EachMember<T>(f: T -> EventKind, items: seq<T>, kind: EventKind)
    ensures kind in Each(f, items) <==> exists x | x in items :: f(x) == kind
  {
    if x :| x in items && f(x) == kind {
      var i :| 0 <= i < |items| && items[i] == x;
      assert Each(f, items)[i] == kind;
    }
    if kind in Each(f, items) {
      var i :| 0 <= i < |items| && Each(f, items)[i] == kind;
      assert items[i] in items && f(items[i]) == kind;
    }
  }

  // ---------------------------------------------------------------- single values

  /** A Wi-Fi event is emitted exactly when its value was probed and is new or the first. */
  lemma WifiEmitted(st: PollState, needs: Needs, probes: Probes, walk: Walk, connected: bool, ssid: Option<string>, bssid: Option<string>)
    ensures Emission(WifiSensor, EventKind.Wifi(connected, ssid, bssid)) in Cycle(st, needs, probes, walk).events <==>
            && needs.wifi && probes.wifi == Some(WifiState(connected, ssid, bssid))
            && (!st.initialized || st.wifi != probes.wifi)
  {
    var kind := EventKind.Wifi(connected, ssid, bssid);
    CycleEmits(st, needs, probes, walk, Emission(WifiSensor, kind));
    if needs.wifi && probes.wifi.Some? {
      TaggedMember(WifiSensor, WifiDelta(!st.initialized, st.wifi, probes.wifi.value), kind);
    }
  }

  lemma NetworkEmitted(st: PollState, needs: Needs, probes: Probes, walk: Walk, online: bool, iface: Option<string>, vpn: bool)
    ensures Emission(NetworkSensor, EventKind.Network(online, iface, vpn)) in Cycle(st, needs, probes, walk).events <==>
            && needs.network && probes.network == Some(NetworkState(online, iface, vpn))
            && (!st.initialized || st.network != probes.network)
  {
    var kind := EventKind.Network(online, iface, vpn);
    CycleEmits(st, needs, probes, walk, Emission(NetworkSensor, kind));
    if needs.network && probes.network.Some? {
      TaggedMember(NetworkSensor, NetworkDelta(!st.initialized, st.network, probes.network.value), kind);
    }
  }

  lemma PowerEmitted(st: PollState, needs: Needs, probes: Probes, walk: Walk, onAc: Option<bool>, battery: Option<u8>, lid: Option<bool>)
    ensures Emission(PowerSensor, EventKind.Power(onAc, battery, lid)) in Cycle(st, needs, probes, walk).events <==>
            && needs.power && probes.power == Some(PowerState(onAc, battery, lid))
            && (!st.initialized || st.power != probes.power)
  {
    var kind := EventKind.Power(onAc, battery, lid);
    CycleEmits(st, needs, probes, walk, Emission(PowerSensor, kind));
    if needs.power && probes.power.Some? {
      TaggedMember(PowerSensor, PowerDelta(!st.initialized, st.power, probes.power.value), kind);
    }
  }

  /** A new session state is emitted as it is; besides, a login is emitted when the session comes out of the logged-out
      state, or is found at first, in any other state. */
  lemma SessionEmitted(st: PollState, needs: Needs, probes: Probes, walk: Walk, state: SessionState, user: Option<string>, remote: bool)
    ensures Emission(SessionSensor, EventKind.Session(state, user, remote)) in Cycle(st, needs, probes, walk).events <==>
            && needs.sessions && probes.session.Some? && probes.session.value.user == user && probes.session.value.remote == remote
            && (!st.initialized || st.session != probes.session)
            && (state == probes.session.value.state ||
                (&& state == LoggedIn && probes.session.value.state != LoggedOut
                 && (!st.initialized || (st.session.Some? && st.session.value.state == LoggedOut))))
  {
    var kind := EventKind.Session(state, user, remote);
    CycleEmits(st, needs, probes, walk, Emission(SessionSensor, kind));
    if needs.sessions && probes.session.Some? {
      TaggedMember(SessionSensor, SessionDelta(!st.initialized, st.session, probes.session.value), kind);
    }
  }

  // ---------------------------------------------------------------- collections

  /** In the first cycle every device is reported added; later exactly the new ones as added and the missing ones as
      removed. */
  lemma UsbEmitted(st: PollState, needs: Needs, probes: Probes, walk: Walk, action: DeviceAction, d: UsbDevice)
    requires Complete(walk) && needs.usb && probes.usb.Some?
    ensures Emission(UsbSensor, EventKind.Usb(action, d.vendorId, d.productId, d.serial)) in Cycle(st, needs, probes, walk).events <==>
            || (action.Added? && d in probes.usb.value && (!st.initialized || d !in st.usb))
            || (action.Removed? && st.initialized && d in st.usb && d !in probes.usb.value)
  {
    var kind, v := EventKind.Usb(action, d.vendorId, d.productId, d.serial), probes.usb.value;
    CycleEmits(st, needs, probes, walk, Emission(UsbSensor, kind));
    TaggedMember(UsbSensor, UsbDelta(walk, !st.initialized, st.usb, v), kind);
    UsbKindMember(Added, walk.devices(v), action, d);
    UsbKindMember(Added, walk.devices(v - st.usb), action, d);
    UsbKindMember(Removed, walk.devices(st.usb - v), action, d);
  }

  lemma UsbKindMember(told: DeviceAction, devices: seq<UsbDevice>, action: DeviceAction, d: UsbDevice)
    ensures EventKind.Usb(action, d.vendorId, d.productId, d.serial) in Each(UsbKind(told), devices) <==> action == told && d in devices
  {
    var kind := EventKind.Usb(action, d.vendorId, d.productId, d.serial);
    EachMember(UsbKind(told), devices, kind);
    if x :| x in devices && UsbKind(told)(x) == kind {
      assert x == d;
    }
    if action == told && d in devices {
      assert UsbKind(told)(d) == kind;
    }
  }

  /** The same of mounts, each reported with the source it is or was mounted from. */
  lemma MountEmitted(st: PollState, needs: Needs, probes: Probes, walk: Walk, action: DeviceAction, path: Path, origin: Option<string>)
    requires Complete(walk) && needs.mounts && probes.mounts.Some?
    ensures var v := probes.mounts.value;
            Emission(MountSensor, EventKind.Mount(action, path, origin)) in Cycle(st, needs, probes, walk).events <==>
            || (action.Added? && path in v && origin == v[path] && (!st.initialized || path !in st.mounts))
            || (action.Removed? && st.initialized && path in st.mounts && origin == st.mounts[path] && path !in v)
  {
    var kind, v := EventKind.Mount(action, path, origin), probes.mounts.value;
    CycleEmits(st, needs, probes, walk, Emission(MountSensor, kind));
    TaggedMember(MountSensor, MountDelta(walk, !st.initialized, st.mounts, v), kind);
    MountKindMember(Added, v, walk.paths(v.Keys), action, path, origin);
    MountKindMember(Added, v, Missing(walk, v, st.mounts), action, path, origin);
    MountKindMember(Removed, st.mounts, Missing(walk, st.mounts, v), action, path, origin);
    MissingMember(walk, v, st.mounts, path);
    MissingMember(walk, st.mounts, v, path);
  }

  lemma MissingMember(walk: Walk, table: MountTable, other: MountTable, path: Path)
    requires Complete(walk)
    ensures path in Missing(walk, table, other) <==> path in table && path !in other
  {
    FilterMembers((q: Path) => q !in other, walk.paths(table.Keys), path);
  }

  lemma MountKindMember(told: DeviceAction, table: MountTable, paths: seq<Path>, action: DeviceAction, path: Path, origin: Option<string>)
    ensures EventKind.Mount(action, path, origin) in Each(MountKind(told, table), paths) <==>
            action == told && path in paths && origin == (if path in table then table[path] else None)
  {
    var kind := EventKind.Mount(action, path, origin);
    EachMember(MountKind(told, table), paths, kind);
    if x :| x in paths && MountKind(told, table)(x) == kind {
      assert x == path;
    }
    if action == told && path in paths && origin == (if path in table then table[path] else None) {
      assert MountKind(told, table)(path) == kind;
    }
  }

  lemma ProcessKindMember(v: map<string, bool>, names: seq<string>, name: string, running: bool)
    ensures EventKind.Process(name, running) in Each(ProcessKind(v), names) <==> name in names && running == On(v, name)
  {
    EachMember(ProcessKind(v), names, EventKind.Process(name, running));
    if name in names && running == On(v, name) {
      assert ProcessKind(v)(name) == EventKind.Process(name, running);
    }
  }

  /** A process is reported with what was probed of it, in the first cycle and whenever that differs from what was held. */
  lemma ProcessEmitted(st: PollState, needs: Needs, probes: Probes, walk: Walk, name: string, running: bool)
    requires Complete(walk) && needs.processes != {} && probes.processes.Some?
    ensures var v := probes.processes.value;
            Emission(ProcessSensor, EventKind.Process(name, running)) in Cycle(st, needs, probes, walk).events <==>
            name in v && running == v[name] && (!st.initialized || !(name in st.processes && st.processes[name] == v[name]))
  {
    var kind, v := EventKind.Process(name, running), probes.processes.value;
    var names := ChangedNames(walk, !st.initialized, st.processes, v);
    CycleEmits(st, needs, probes, walk, Emission(ProcessSensor, kind));
    TaggedMember(ProcessSensor, Each(ProcessKind(v), names), kind);
    ProcessKindMember(v, names, name, running);
    ChangedNamesExact(walk, !st.initialized, st.processes, v);
  }

  lemma ServiceKindMember(v: map<string, bool>, names: seq<string>, name: string, active: bool)
    ensures EventKind.Service(name, active) in Each(ServiceKind(v), names) <==> name in names && active == On(v, name)
  {
    EachMember(ServiceKind(v), names, EventKind.Service(name, active));
    if name in names && active == On(v, name) {
      assert ServiceKind(v)(name) == EventKind.Service(name, active);
    }
  }

  lemma ServiceEmitted(st: PollState, needs: Needs, probes: Probes, walk: Walk, name: string, active: bool)
    requires Complete(walk) && needs.services != {} && probes.services.Some?
    ensures var v := probes.services.value;
            Emission(ServiceSensor, EventKind.Service(name, active)) in Cycle(st, needs, probes, walk).events <==>
            name in v && active == v[name] && (!st.initialized || !(name in st.services && st.services[name] == v[name]))
  {
    var kind, v := EventKind.Service(name, active), probes.services.value;
    var names := ChangedNames(walk, !st.initialized, st.services, v);
    CycleEmits(st, needs, probes, walk, Emission(ServiceSensor, kind));
    TaggedMember(ServiceSensor, Each(ServiceKind(v), names), kind);
    ServiceKindMember(v, names, name, active);
    ChangedNamesExact(walk, !st.initialized, st.services, v);
  }

  /** Every required port is reported in the first cycle, open or closed; later exactly those that opened or closed. */
  lemma PortEmitted(st: PollState, needs: Needs, probes: Probes, walk: Walk, port: u16, protocol: NetworkProtocol, open: bool)
    requires Complete(walk) && needs.ports != {} && probes.ports.Some?
    ensures var key, v := (protocol, port), probes.ports.value;
            Emission(PortSensor, EventKind.Port(port, protocol, open)) in Cycle(st, needs, probes, walk).events <==>
            (open <==> key in v) && (if st.initialized then (key in v) != (key in st.ports) else key in needs.ports)
  {
    var kind, v, first := EventKind.Port(port, protocol, open), probes.ports.value, !st.initialized;
    var ports := walk.ports(if first then needs.ports else (v - st.ports) + (st.ports - v));
    CycleEmits(st, needs, probes, walk, Emission(PortSensor, kind));
    TaggedMember(PortSensor, Each(PortKind(v), ports), kind);
    EachMember(PortKind(v), ports, kind);
    if (protocol, port) in ports && (open <==> (protocol, port) in v) {
      assert PortKind(v)((protocol, port)) == kind;
    }
  }

  // ---------------------------------------------------------------- failures and integrity

  /** A failure report carries the sensor's name and the probe's own error. */
  lemma FailureEmitted(st: PollState, needs: Needs, probes: Probes, walk: Walk, sensor: Sensor, name: string, message: string)
    requires !sensor.IntegritySensor?
    ensures Emission(sensor, EventKind.SensorFailure(name, message)) in Cycle(st, needs, probes, walk).events <==>
            && Attempted(sensor, needs) && !ProbeOk(sensor, probes) && sensor !in st.failed
            && name == Label(sensor) && message == probes.error(sensor)
  {
    CycleEmits(st, needs, probes, walk, Emission(sensor, EventKind.SensorFailure(name, message)));
    if !Attempted(sensor, needs) {
      IdleStep(sensor, st, needs, probes, !st.initialized, walk);
    } else if ProbeOk(sensor, probes) {
      SuccessReportsNothing(sensor, st, needs, probes, !st.initialized, walk);
    } else {
      FailureStep(sensor, st, needs, probes, !st.initialized, walk);
    }
  }

  function PickConfig(p: Probes): Option<string> { p.configHash }
  function PickBinary(p: Probes): Option<string> { p.binaryHash }

  /** The hashes compared against are the last readable ones since the reset. */
  lemma {:induction false} HashesRemembered(needs: Needs, steps: seq<PollStep>)
    requires needs.integrity
    ensures var st, h := StateAfter(needs, steps), ProbesSince(steps);
            st.configHash == LastOk(PickConfig, h) && st.binaryHash == LastOk(PickBinary, h)
  {
    if steps != [] {
      var before := steps[..|steps| - 1];
      HashesRemembered(needs, before);
      match steps[|steps| - 1]
      case Poll(probes, walk) =>
        var st := StateAfter(needs, before);
        OrderIsDistinct();
        FieldAfter(ORDER, st, needs, probes, !st.initialized, walk, IntegritySensor);
        LastOkMore(PickConfig, ProbesSince(before), probes);
        LastOkMore(PickBinary, ProbesSince(before), probes);
      case Reset(_) =>
      case Other(_) =>
    }
  }

  predicate Changed(was: Option<string>, now: Option<string>) {
    was.Some? && now.Some? && was.value != now.value
  }

  /** In every run a cycle reports a violation of a component exactly when its hash can be read and differs from the last
      one that could be read since the reset; integrity is never reported as intact. */
  lemma ViolationExact(needs: Needs, steps: seq<PollStep>, probes: Probes, walk: Walk, component: string, valid: bool, detail: Option<string>)
    requires needs.integrity
    ensures var h := ProbesSince(steps);
            Emission(IntegritySensor, EventKind.Integrity(component, valid, detail)) in
              Cycle(StateAfter(needs, steps), needs, probes, walk).events <==>
            && !valid && detail == Some(probes.detail(component))
            && ((component == "configuration" && Changed(LastOk(PickConfig, h), probes.configHash)) ||
                (component == "binary" && Changed(LastOk(PickBinary, h), probes.binaryHash)))
  {
    var st, kind := StateAfter(needs, steps), EventKind.Integrity(component, valid, detail);
    HashesRemembered(needs, steps);
    CycleEmits(st, needs, probes, walk, Emission(IntegritySensor, kind));
    var a := IntegrityKinds("configuration", st.configHash, probes.configHash, probes);
    var b := IntegrityKinds("binary", st.binaryHash, probes.binaryHash, probes);
    TaggedMember(IntegritySensor, a + b, kind);
    ViolationKind("configuration", st.configHash, probes.configHash, probes, kind);
    ViolationKind("binary", st.binaryHash, probes.binaryHash, probes, kind);
  }

  lemma ViolationKind(component: string, was: Option<string>, now: Option<string>, probes: Probes, kind: EventKind)
    requires kind.Integrity?
    ensures kind in IntegrityKinds(component, was, now, probes) <==>
            && Changed(was, now) && kind.component == component && !kind.valid && kind.detail == Some(probes.detail(component))
  {
  }

  // ---------------------------------------------------------------- USB devices over runs

  /** The devices an observer of the events believes to be plugged in. */
  function Plugged(devices: set<UsbDevice>, kinds: seq<EventKind>): set<UsbDevice> {
    if kinds == [] then devices
    else
      var before, kind := Plugged(devices, kinds[..|kinds| - 1]), kinds[|kinds| - 1];
      if !kind.Usb? then before
      else
        var device := UsbDevice(kind.vendorId, kind.productId, kind.serial);
        match kind.device
        case Added => before + {device}
        case Removed => before - {device}
        case Changed => before
  }

  lemma {:induction false} PluggedConcat(devices: set<UsbDevice>, a: seq<EventKind>, b: seq<EventKind>)
    ensures Plugged(devices, a + b) == Plugged(Plugged(devices, a), b)
  {
    if b == [] {
      assert a + b == a;
    } else {
      assert (a + b)[..|a + b| - 1] == a + b[..|b| - 1];
      PluggedConcat(devices, a, b[..|b| - 1]);
    }
  }

  lemma PluggedCompose(devices: set<UsbDevice>, a: seq<Emission>, b: seq<Emission>)
    ensures Plugged(devices, Kinds(a + b)) == Plugged(Plugged(devices, Kinds(a)), Kinds(b))
  {
    assert Kinds(a + b) == Kinds(a) + Kinds(b);
    PluggedConcat(devices, Kinds(a), Kinds(b));
  }

  lemma {:induction false} PluggedIn(devices: set<UsbDevice>, items: seq<UsbDevice>)
    ensures Plugged(devices, Each(UsbKind(Added), items)) == devices + Elements(items)
  {
    if items != [] {
      EachLast(UsbKind(Added), items);
      PluggedIn(devices, items[..|items| - 1]);
      MembersOfLast(items);
      assert devices + Elements(items) == devices + Elements(items[..|items| - 1]) + {items[|items| - 1]};
    }
  }

  lemma {:induction false} PluggedOut(devices: set<UsbDevice>, items: seq<UsbDevice>)
    ensures Plugged(devices, Each(UsbKind(Removed), items)) == devices - Elements(items)
  {
    if items != [] {
      EachLast(UsbKind(Removed), items);
      PluggedOut(devices, items[..|items| - 1]);
      MembersOfLast(items);
      assert devices - Elements(items) == devices - Elements(items[..|items| - 1]) - {items[|items| - 1]};
    }
  }

  lemma {:induction false} NothingPlugged(devices: set<UsbDevice>, kinds: seq<EventKind>)
    requires forall i | 0 <= i < |kinds| :: !kinds[i].Usb?
    ensures Plugged(devices, kinds) == devices
  {
    if kinds != [] {
      NothingPlugged(devices, kinds[..|kinds| - 1]);
    }
  }

  lemma UsbAfter(walk: Walk, first: bool, was: set<UsbDevice>, v: set<UsbDevice>)
    requires Complete(walk) && (first ==> was == {})
    ensures Plugged(was, UsbDelta(walk, first, was, v)) == v
  {
    if first {
      PluggedIn(was, walk.devices(v));
      assert Elements(walk.devices(v)) == v;
    } else {
      PluggedConcat(was, Each(UsbKind(Added), walk.devices(v - was)), Each(UsbKind(Removed), walk.devices(was - v)));
      PluggedIn(was, walk.devices(v - was));
      assert Elements(walk.devices(v - was)) == v - was && Elements(walk.devices(was - v)) == was - v;
      PluggedOut(was + (v - was), walk.devices(was - v));
    }
  }

  lemma OnlyUsbPlugs(sensor: Sensor, st: PollState, needs: Needs, probes: Probes, first: bool, walk: Walk)
    requires !sensor.UsbSensor?
    ensures forall e | e in PollSensor(sensor, st, needs, probes, first, walk).events :: !e.kind.Usb?
  {
  }

  lemma SensorPlugs(sensor: Sensor, st: PollState, needs: Needs, probes: Probes, first: bool, walk: Walk, devices: set<UsbDevice>)
    requires Complete(walk) && (sensor.UsbSensor? ==> devices == st.usb && (first ==> st.usb == {}))
    ensures Plugged(devices, Kinds(PollSensor(sensor, st, needs, probes, first, walk).events)) ==
            if sensor.UsbSensor? then Kept(needs.usb, probes.usb, st.usb) else devices
  {
    var events := PollSensor(sensor, st, needs, probes, first, walk).events;
    if !sensor.UsbSensor? {
      OnlyUsbPlugs(sensor, st, needs, probes, first, walk);
      NothingPlugged(devices, Kinds(events));
    } else if needs.usb && probes.usb.Some? {
      TaggedKinds(UsbSensor, UsbDelta(walk, first, st.usb, probes.usb.value));
      UsbAfter(walk, first, st.usb, probes.usb.value);
    } else {
      NothingPlugged(devices, Kinds(events));
    }
  }

  lemma {:induction false} PolledPlugs(sensors: seq<Sensor>, st: PollState, needs: Needs, probes: Probes, first: bool, walk: Walk)
    requires Distinct(sensors) && Complete(walk) && (first ==> st.usb == {})
    ensures var step := PollAll(sensors, st, needs, probes, first, walk);
            Plugged(st.usb, Kinds(step.events)) == if UsbSensor in sensors then Kept(needs.usb, probes.usb, st.usb) else st.usb
  {
    if sensors == [] {
      assert Kinds([]) == [];
    } else {
      var front, last := sensors[..|sensors| - 1], sensors[|sensors| - 1];
      var mid := PollAll(front, st, needs, probes, first, walk);
      var step := PollSensor(last, mid.state, needs, probes, first, walk);
      PolledPlugs(front, st, needs, probes, first, walk);
      MembersOfLast(sensors);
      if last.UsbSensor? {
        assert last !in front;
        FieldAfter(front, st, needs, probes, first, walk, UsbSensor);
      }
      SensorPlugs(last, mid.state, needs, probes, first, walk, Plugged(st.usb, Kinds(mid.events)));
      PluggedCompose(st.usb, mid.events, step.events);
    }
  }

  /** What an observer of the events since the last reset believes to be plugged in. */
  function PluggedAfter(needs: Needs, steps: seq<PollStep>): set<UsbDevice> {
    if steps == [] then {}
    else
      var before := steps[..|steps| - 1];
      match steps[|steps| - 1]
      case Poll(probes, walk) =>
        Plugged(PluggedAfter(needs, before), Kinds(Cycle(StateAfter(needs, before), needs, probes, walk).events))
      case Reset(_) => {}
      case Other(_) => PluggedAfter(needs, before)
  }

  function PickUsb(p: Probes): Option<set<UsbDevice>> { p.usb }

  lemma {:induction false} PluggedIsHeld(needs: Needs, steps: seq<PollStep>)
    requires Proper(needs, steps) && needs.usb
    ensures PluggedAfter(needs, steps) == StateAfter(needs, steps).usb
    ensures var last := LastOk(PickUsb, ProbesSince(steps)); StateAfter(needs, steps).usb == if last.Some? then last.value else {}
  {
    if steps != [] {
      var before := steps[..|steps| - 1];
      PluggedIsHeld(needs, before);
      match steps[|steps| - 1]
      case Poll(probes, walk) =>
        var st := StateAfter(needs, before);
        RunAgrees(needs, before);
        OrderIsDistinct();
        PolledPlugs(ORDER, st, needs, probes, !st.initialized, walk);
        FieldAfter(ORDER, st, needs, probes, !st.initialized, walk, UsbSensor);
        LastOkMore(PickUsb, ProbesSince(before), probes);
      case Reset(_) =>
      case Other(_) =>
    }
  }

  /** In every run, whatever probes fail, the additions and removals emitted since the last reset add up to the devices of
      the last successful probe. */
  lemma PluggedFollowsProbes(needs: Needs, steps: seq<PollStep>)
    requires Proper(needs, steps) && needs.usb && LastOk(PickUsb, ProbesSince(steps)).Some?
    ensures PluggedAfter(needs, steps) == LastOk(PickUsb, ProbesSince(steps)).value
  {
    PluggedIsHeld(needs, steps);
  }
}
