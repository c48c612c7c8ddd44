/** Replaying the emitted events reproduces what was probed, under any pattern of probe failures. */
module PollingRuns {
  import opened Options
  import opened Config
  import opened Events
  import opened Requirements
  import opened Polling

  // ---------------------------------------------------------------- the part of a snapshot that sensors feed

  datatype Observed = Observed(
    wifi: WifiState, network: NetworkState, mounts: set<Path>, processes: set<string>, services: map<string, bool>,
    ports: set<PortKey>, session: SessionView, power: PowerState)

  function Seen(s: Snapshot): Observed {
    Observed(s.wifi, s.network, s.mounts, s.processes, s.services, s.ports, s.session, s.power)
  }

  const UNSEEN := Observed(NO_WIFI, NO_NETWORK, {}, {}, map[], {}, NO_SESSION, NO_POWER)

  function Absorb(o: Observed, kind: EventKind): Observed {
    match kind
    case Wifi(connected, ssid, bssid) => o.(wifi := WifiState(connected, ssid, bssid))
    case Network(online, iface, vpn) => o.(network := NetworkState(online, iface, vpn))
    case Mount(device, path, _) => o.(mounts := if device.Removed? then o.mounts - {path} else o.mounts + {path})
    case Process(name, running) => o.(processes := if running then o.processes + {name} else o.processes - {name})
    case Service(name, active) => o.(services := o.services[name := active])
    case Port(port, protocol, open) =>
      o.(ports := if open then o.ports + {(protocol, port)} else o.ports - {(protocol, port)})
    case Session(state, user, remote) => o.(session := SessionView(Some(state), user, remote))
    case Power(onAc, battery, lid) => o.(power := PowerState(onAc, battery, lid))
    case _ => o
  }

  /** Whatever its identifier, time and source, an event changes the snapshot's sensor part by its payload alone. */
  lemma SeenByPayload(s: Snapshot, event: Event)
    ensures Seen(ApplyEvent(s, event)) == Absorb(Seen(s), event.kind)
  {
  }

  function Kinds(events: seq<Emission>): seq<EventKind> {
    seq(|events|, i requires 0 <= i < |events| => events[i].kind)
  }

  function AbsorbAll(o: Observed, kinds: seq<EventKind>): Observed {
    if kinds == [] then o else Absorb(AbsorbAll(o, kinds[..|kinds| - 1]), kinds[|kinds| - 1])
  }

  /** Replaying published events through the snapshot is absorbing their payloads. */
  lemma {:induction false} ReplayAbsorbs(s: Snapshot, events: seq<Event>, kinds: seq<EventKind>)
    requires |events| == |kinds| && forall i | 0 <= i < |kinds| :: events[i].kind == kinds[i]
    ensures Seen(Replay(s, events)) == AbsorbAll(Seen(s), kinds)
  {
    if events != [] {
      ReplayAbsorbs(s, events[..|events| - 1], kinds[..|kinds| - 1]);
      SeenByPayload(Replay(s, events[..|events| - 1]), events[|events| - 1]);
    }
  }

  lemma {:induction false} AbsorbConcat(o: Observed, a: seq<EventKind>, b: seq<EventKind>)
    ensures AbsorbAll(o, a + b) == AbsorbAll(AbsorbAll(o, a), b)
  {
    if b == [] {
      assert a + b == a;
    } else {
      assert (a + b)[..|a + b| - 1] == a + b[..|b| - 1];
      AbsorbConcat(o, a, b[..|b| - 1]);
    }
  }

  lemma AbsorbOne(o: Observed, kind: EventKind)
    ensures AbsorbAll(o, [kind]) == Absorb(o, kind) && AbsorbAll(o, []) == o
  {
    assert [kind][..0] == [];
  }

  lemma TaggedKinds(sensor: Sensor, kinds: seq<EventKind>)
    ensures Kinds(Tagged(sensor, kinds)) == kinds
  {
  }

  // ---------------------------------------------------------------- walks over collections

  function Elements<T>(items: seq<T>): set<T> {
    set x | x in items
  }

  lemma EachLast<T>(f: T -> EventKind, items: seq<T>)
    requires items != []
    ensures var n := |items| - 1; Each(f, items) == Each(f, items[..n]) + [f(items[n])]
    ensures Each(f, items)[..|items| - 1] == Each(f, items[..|items| - 1])
  {
  }

  lemma {:induction false} MountsAdded(o: Observed, table: MountTable, paths: seq<Path>)
    ensures AbsorbAll(o, Each(MountKind(Added, table), paths)) == o.(mounts := o.mounts + Elements(paths))
  {
    if paths == [] {
      assert o.mounts + Elements(paths) == o.mounts;
    } else {
      EachLast(MountKind(Added, table), paths);
      MountsAdded(o, table, paths[..|paths| - 1]);
      assert o.mounts + Elements(paths) == o.mounts + Elements(paths[..|paths| - 1]) + {paths[|paths| - 1]};
    }
  }

  lemma {:induction false} MountsRemoved(o: Observed, table: MountTable, paths: seq<Path>)
    ensures AbsorbAll(o, Each(MountKind(Removed, table), paths)) == o.(mounts := o.mounts - Elements(paths))
  {
    if paths == [] {
      assert o.mounts - Elements(paths) == o.mounts;
    } else {
      EachLast(MountKind(Removed, table), paths);
      MountsRemoved(o, table, paths[..|paths| - 1]);
      assert o.mounts - Elements(paths) == o.mounts - Elements(paths[..|paths| - 1]) - {paths[|paths| - 1]};
    }
  }

  /** After the events for `names`, those are as probed and all others as before. */
  lemma {:induction false} ProcessesSet(o: Observed, v: map<string, bool>, names: seq<string>)
    ensures var r := AbsorbAll(o, Each(ProcessKind(v), names));
            && r == o.(processes := r.processes)
            && forall x :: x in r.processes <==> if x in names then On(v, x) else x in o.processes
  {
    if names != [] {
      EachLast(ProcessKind(v), names);
      ProcessesSet(o, v, names[..|names| - 1]);
      MembersOfLast(names);
    }
  }

  lemma {:induction false} ServicesSet(o: Observed, v: map<string, bool>, names: seq<string>)
    ensures var r := AbsorbAll(o, Each(ServiceKind(v), names));
            && r == o.(services := r.services)
            && (forall x :: x in r.services <==> x in names || x in o.services)
            && (forall x | x in r.services :: r.services[x] == if x in names then On(v, x) else o.services[x])
  {
    if names != [] {
      EachLast(ServiceKind(v), names);
      ServicesSet(o, v, names[..|names| - 1]);
      MembersOfLast(names);
    }
  }

  lemma {:induction false} PortsSet(o: Observed, v: set<PortKey>, ports: seq<PortKey>)
    ensures var r := AbsorbAll(o, Each(PortKind(v), ports));
            && r == o.(ports := r.ports)
            && forall x :: x in r.ports <==> if x in ports then x in v else x in o.ports
  {
    if ports != [] {
      EachLast(PortKind(v), ports);
      PortsSet(o, v, ports[..|ports| - 1]);
      MembersOfLast(ports);
    }
  }

  lemma MembersOfLast<T>(items: seq<T>)
    requires items != []
    ensures forall x :: x in items <==> x in items[..|items| - 1] || x == items[|items| - 1]
  {
    assert items == items[..|items| - 1] + [items[|items| - 1]];
  }

  lemma {:induction false} UsbUnseen(o: Observed, action: DeviceAction, devices: seq<UsbDevice>)
    ensures AbsorbAll(o, Each(UsbKind(action), devices)) == o
  {
    if devices != [] {
      EachLast(UsbKind(action), devices);
      UsbUnseen(o, action, devices[..|devices| - 1]);
    }
  }

  // ---------------------------------------------------------------- agreement

  /** What probes promise: the named processes and services are all reported, ports are never failing and only
      required ones are reported. */
  predicate Faithful(probes: Probes, needs: Needs) {
    && (probes.processes.Some? ==> probes.processes.value.Keys == needs.processes)
    && (probes.services.Some? ==> probes.services.value.Keys == needs.services)
    && probes.ports.Some? && probes.ports.value <= needs.ports
  }

  function RunningNames(v: map<string, bool>): set<string> {
    set n | n in v && v[n]
  }

  /** How closely the snapshot must follow: mounts exactly or at least, ports from the first cycle on. */
  datatype Closeness = Closeness(mountsExact: bool, portsPolled: bool)

  /** The snapshot holds the value last probed by the sensor, if there is one. */
  ghost predicate AgreesOn(sensor: Sensor, needs: Needs, st: PollState, o: Observed, c: Closeness) {
    match sensor
    case WifiSensor => st.wifi.Some? ==> o.wifi == st.wifi.value
    case NetworkSensor => st.network.Some? ==> o.network == st.network.value
    case MountSensor => if c.mountsExact then o.mounts == st.mounts.Keys else st.mounts.Keys <= o.mounts
    case ProcessSensor =>
      && o.processes <= needs.processes
      && (st.processes.Keys == {} || (st.processes.Keys == needs.processes && o.processes == RunningNames(st.processes)))
    case ServiceSensor =>
      && o.services.Keys <= needs.services
      && (st.services.Keys == {} || (st.services.Keys == needs.services && o.services == st.services))
    case PortSensor => o.ports <= needs.ports && st.ports <= needs.ports && (c.portsPolled ==> o.ports == st.ports)
    case SessionSensor =>
      st.session.Some? ==>
        o.session == SessionView(Some(st.session.value.state), st.session.value.user, st.session.value.remote)
    case PowerSensor => st.power.Some? ==> o.power == st.power.value
    case _ => true
  }

  ghost predicate Agrees(needs: Needs, st: PollState, o: Observed, c: Closeness) {
    forall sensor :: AgreesOn(sensor, needs, st, o, c)
  }

  /** Two states and snapshots that differ at most in what concerns one sensor. */
  predicate SameElsewhere(sensor: Sensor, a: PollState, b: PollState, o: Observed, p: Observed) {
    && (sensor.WifiSensor? || (a.wifi == b.wifi && o.wifi == p.wifi))
    && (sensor.NetworkSensor? || (a.network == b.network && o.network == p.network))
    && (sensor.MountSensor? || (a.mounts == b.mounts && o.mounts == p.mounts))
    && (sensor.ProcessSensor? || (a.processes == b.processes && o.processes == p.processes))
    && (sensor.ServiceSensor? || (a.services == b.services && o.services == p.services))
    && (sensor.PortSensor? || (a.ports == b.ports && o.ports == p.ports))
    && (sensor.SessionSensor? || (a.session == b.session && o.session == p.session))
    && (sensor.PowerSensor? || (a.power == b.power && o.power == p.power))
  }

  lemma OthersUnaffected(sensor: Sensor, needs: Needs, a: PollState, b: PollState, o: Observed, p: Observed, c: Closeness)
    requires Agrees(needs, a, o, c) && SameElsewhere(sensor, a, b, o, p) && AgreesOn(sensor, needs, b, p, c)
    ensures Agrees(needs, b, p, c)
  {
    forall s ensures AgreesOn(s, needs, b, p, c) {
      assert AgreesOn(s, needs, a, o, c);
    }
  }

  lemma FailKeepsAgreement(sensor: Sensor, st: PollState, probes: Probes, needs: Needs, o: Observed, c: Closeness)
    requires Agrees(needs, st, o, c)
    ensures var step := Fail(st, sensor, probes); Agrees(needs, step.state, AbsorbAll(o, Kinds(step.events)), c)
  {
    var step, kind := Fail(st, sensor, probes), EventKind.SensorFailure(Label(sensor), probes.error(sensor));
    AbsorbOne(o, kind);
    assert Kinds(step.events) == [] || Kinds(step.events) == [kind];
    OthersUnaffected(UsbSensor, needs, st, step.state, o, o, c);
  }

  lemma WifiAgrees(st: PollState, needs: Needs, probes: Probes, first: bool, o: Observed, c: Closeness)
    requires Agrees(needs, st, o, c) && needs.wifi && probes.wifi.Some?
    ensures var step := PollWifi(st, needs, probes, first); Agrees(needs, step.state, AbsorbAll(o, Kinds(step.events)), c)
  {
    var v := probes.wifi.value;
    TaggedKinds(WifiSensor, WifiDelta(first, st.wifi, v));
    AbsorbOne(o, EventKind.Wifi(v.connected, v.ssid, v.bssid));
    assert AgreesOn(WifiSensor, needs, st, o, c);
    assert AbsorbAll(o, WifiDelta(first, st.wifi, v)) == o.(wifi := v);
    OthersUnaffected(WifiSensor, needs, st, PollWifi(st, needs, probes, first).state, o, o.(wifi := v), c);
  }

  lemma NetworkAgrees(st: PollState, needs: Needs, probes: Probes, first: bool, o: Observed, c: Closeness)
    requires Agrees(needs, st, o, c) && needs.network && probes.network.Some?
    ensures var step := PollNetwork(st, needs, probes, first); Agrees(needs, step.state, AbsorbAll(o, Kinds(step.events)), c)
  {
    var v := probes.network.value;
    TaggedKinds(NetworkSensor, NetworkDelta(first, st.network, v));
    AbsorbOne(o, EventKind.Network(v.online, v.iface, v.vpn));
    assert AgreesOn(NetworkSensor, needs, st, o, c);
    assert AbsorbAll(o, NetworkDelta(first, st.network, v)) == o.(network := v);
    OthersUnaffected(NetworkSensor, needs, st, PollNetwork(st, needs, probes, first).state, o, o.(network := v), c);
  }

  lemma PowerAgrees(st: PollState, needs: Needs, probes: Probes, first: bool, o: Observed, c: Closeness)
    requires Agrees(needs, st, o, c) && needs.power && probes.power.Some?
    ensures var step := PollPower(st, needs, probes, first); Agrees(needs, step.state, AbsorbAll(o, Kinds(step.events)), c)
  {
    var v := probes.power.value;
    TaggedKinds(PowerSensor, PowerDelta(first, st.power, v));
    AbsorbOne(o, EventKind.Power(v.onAc, v.batteryPercent, v.lidClosed));
    assert AgreesOn(PowerSensor, needs, st, o, c);
    assert AbsorbAll(o, PowerDelta(first, st.power, v)) == o.(power := v);
    OthersUnaffected(PowerSensor, needs, st, PollPower(st, needs, probes, first).state, o, o.(power := v), c);
  }

  lemma SessionAfter(first: bool, was: Option<SessionInfo>, v: SessionInfo, o: Observed)
    requires was.Some? ==> o.session == SessionView(Some(was.value.state), was.value.user, was.value.remote)
    ensures AbsorbAll(o, SessionDelta(first, was, v)) == o.(session := SessionView(Some(v.state), v.user, v.remote))
  {
    var kinds := SessionDelta(first, was, v);
    AbsorbOne(o, EventKind.Session(v.state, v.user, v.remote));
    if |kinds| == 2 {
      AbsorbOne(o, kinds[0]);
      assert kinds[..1] == [kinds[0]];
    }
  }

  lemma SessionAgrees(st: PollState, needs: Needs, probes: Probes, first: bool, o: Observed, c: Closeness)
    requires Agrees(needs, st, o, c) && needs.sessions && probes.session.Some?
    ensures var step := PollSession(st, needs, probes, first); Agrees(needs, step.state, AbsorbAll(o, Kinds(step.events)), c)
  {
    var v := probes.session.value;
    TaggedKinds(SessionSensor, SessionDelta(first, st.session, v));
    assert AgreesOn(SessionSensor, needs, st, o, c);
    SessionAfter(first, st.session, v, o);
    OthersUnaffected(SessionSensor, needs, st, PollSession(st, needs, probes, first).state, o,
                     o.(session := SessionView(Some(v.state), v.user, v.remote)), c);
  }

  lemma UsbAgrees(st: PollState, needs: Needs, probes: Probes, first: bool, walk: Walk, o: Observed, c: Closeness)
    requires Agrees(needs, st, o, c) && needs.usb && probes.usb.Some?
    ensures var step := PollUsb(st, needs, probes, first, walk); Agrees(needs, step.state, AbsorbAll(o, Kinds(step.events)), c)
  {
    var v := probes.usb.value;
    TaggedKinds(UsbSensor, UsbDelta(walk, first, st.usb, v));
    UsbUnseen(o, Added, walk.devices(v));
    UsbUnseen(o, Added, walk.devices(v - st.usb));
    UsbUnseen(o, Removed, walk.devices(st.usb - v));
    AbsorbConcat(o, Each(UsbKind(Added), walk.devices(v - st.usb)), Each(UsbKind(Removed), walk.devices(st.usb - v)));
    OthersUnaffected(UsbSensor, needs, st, PollUsb(st, needs, probes, first, walk).state, o, o, c);
  }

  lemma MissingExact(walk: Walk, table: MountTable, other: MountTable)
    requires Complete(walk)
    ensures Elements(Missing(walk, table, other)) == table.Keys - other.Keys
  {
    forall p ensures p in Missing(walk, table, other) <==> p in table.Keys - other.Keys {
      FilterMembers((q: Path) => q !in other, walk.paths(table.Keys), p);
    }
  }

  lemma MountsAfter(walk: Walk, first: bool, was: MountTable, v: MountTable, o: Observed)
    requires Complete(walk)
    ensures AbsorbAll(o, MountDelta(walk, first, was, v)) ==
            o.(mounts := if first then o.mounts + v.Keys else o.mounts + (v.Keys - was.Keys) - (was.Keys - v.Keys))
  {
    if first {
      MountsAdded(o, v, walk.paths(v.Keys));
      assert Elements(walk.paths(v.Keys)) == v.Keys;
    } else {
      var added, removed := Missing(walk, v, was), Missing(walk, was, v);
      AbsorbConcat(o, Each(MountKind(Added, v), added), Each(MountKind(Removed, was), removed));
      MountsAdded(o, v, added);
      MountsRemoved(o.(mounts := o.mounts + Elements(added)), was, removed);
      MissingExact(walk, v, was);
      MissingExact(walk, was, v);
    }
  }

  lemma MountsAgree(st: PollState, needs: Needs, probes: Probes, first: bool, walk: Walk, o: Observed, c: Closeness)
    requires Complete(walk) && Agrees(needs, st, o, c) && needs.mounts && probes.mounts.Some?
    requires first && c.mountsExact ==> st.mounts.Keys == {}
    ensures var step := PollMounts(st, needs, probes, first, walk); Agrees(needs, step.state, AbsorbAll(o, Kinds(step.events)), c)
  {
    var v := probes.mounts.value;
    TaggedKinds(MountSensor, MountDelta(walk, first, st.mounts, v));
    MountsAfter(walk, first, st.mounts, v, o);
    assert AgreesOn(MountSensor, needs, st, o, c);
    OthersUnaffected(MountSensor, needs, st, PollMounts(st, needs, probes, first, walk).state, o,
                     AbsorbAll(o, MountDelta(walk, first, st.mounts, v)), c);
  }

  lemma ChangedNamesExact(walk: Walk, first: bool, was: map<string, bool>, v: map<string, bool>)
    requires Complete(walk)
    ensures forall n :: n in ChangedNames(walk, first, was, v) <==> n in v && HasChanged(first, was, v, n)
  {
    forall n ensures n in ChangedNames(walk, first, was, v) <==> n in v && HasChanged(first, was, v, n) {
      FilterMembers((m: string) => HasChanged(first, was, v, m), walk.names(v.Keys), n);
    }
  }

  lemma ProcessesAfter(walk: Walk, first: bool, was: map<string, bool>, v: map<string, bool>, o: Observed)
    requires Complete(walk) && o.processes <= v.Keys
    requires was.Keys == {} || o.processes == RunningNames(was)
    ensures AbsorbAll(o, Each(ProcessKind(v), ChangedNames(walk, first, was, v))) == o.(processes := RunningNames(v))
  {
    ChangedNamesExact(walk, first, was, v);
    ProcessesSet(o, v, ChangedNames(walk, first, was, v));
    var r := AbsorbAll(o, Each(ProcessKind(v), ChangedNames(walk, first, was, v)));
    assert r.processes == RunningNames(v);
  }

  lemma ServicesAfter(walk: Walk, first: bool, was: map<string, bool>, v: map<string, bool>, o: Observed)
    requires Complete(walk) && o.services.Keys <= v.Keys
    requires was.Keys == {} || o.services == was
    ensures AbsorbAll(o, Each(ServiceKind(v), ChangedNames(walk, first, was, v))) == o.(services := v)
  {
    ChangedNamesExact(walk, first, was, v);
    ServicesSet(o, v, ChangedNames(walk, first, was, v));
    var r := AbsorbAll(o, Each(ServiceKind(v), ChangedNames(walk, first, was, v)));
    assert r.services.Keys == v.Keys;
    assert r.services == v;
  }

  lemma ProcessesAgree(st: PollState, needs: Needs, probes: Probes, first: bool, walk: Walk, o: Observed, c: Closeness)
    requires Complete(walk) && Agrees(needs, st, o, c) && Faithful(probes, needs)
    requires needs.processes != {} && probes.processes.Some?
    ensures var step := PollProcesses(st, needs, probes, first, walk); Agrees(needs, step.state, AbsorbAll(o, Kinds(step.events)), c)
  {
    var v := probes.processes.value;
    TaggedKinds(ProcessSensor, Each(ProcessKind(v), ChangedNames(walk, first, st.processes, v)));
    assert AgreesOn(ProcessSensor, needs, st, o, c);
    ProcessesAfter(walk, first, st.processes, v, o);
    OthersUnaffected(ProcessSensor, needs, st, PollProcesses(st, needs, probes, first, walk).state, o,
                     o.(processes := RunningNames(v)), c);
  }

  lemma ServicesAgree(st: PollState, needs: Needs, probes: Probes, first: bool, walk: Walk, o: Observed, c: Closeness)
    requires Complete(walk) && Agrees(needs, st, o, c) && Faithful(probes, needs)
    requires needs.services != {} && probes.services.Some?
    ensures var step := PollServices(st, needs, probes, first, walk); Agrees(needs, step.state, AbsorbAll(o, Kinds(step.events)), c)
  {
    var v := probes.services.value;
    TaggedKinds(ServiceSensor, Each(ServiceKind(v), ChangedNames(walk, first, st.services, v)));
    assert AgreesOn(ServiceSensor, needs, st, o, c);
    ServicesAfter(walk, first, st.services, v, o);
    OthersUnaffected(ServiceSensor, needs, st, PollServices(st, needs, probes, first, walk).state, o, o.(services := v), c);
  }

  lemma PortsAfter(walk: Walk, first: bool, required: set<PortKey>, was: set<PortKey>, v: set<PortKey>, o: Observed)
    requires Complete(walk) && v <= required && o.ports <= required && (first || o.ports == was)
    ensures AbsorbAll(o, PortDelta(walk, first, required, was, v)) == o.(ports := v)
  {
    PortsSet(o, v, walk.ports(if first then required else (v - was) + (was - v)));
    assert AbsorbAll(o, PortDelta(walk, first, required, was, v)).ports == v;
  }

  lemma PortsAgree(st: PollState, needs: Needs, probes: Probes, first: bool, walk: Walk, o: Observed, c: Closeness)
    requires Complete(walk) && Agrees(needs, st, o, c) && Faithful(probes, needs) && (first || c.portsPolled)
    ensures var step := PollPorts(st, needs, probes, first, walk);
            Agrees(needs, step.state, AbsorbAll(o, Kinds(step.events)), c.(portsPolled := true))
  {
    var v, polled := probes.ports.value, c.(portsPolled := true);
    assert AgreesOn(PortSensor, needs, st, o, c);
    assert Agrees(needs, st.(ports := o.ports), o, polled) by {
      forall s ensures AgreesOn(s, needs, st.(ports := o.ports), o, polled) {
        assert AgreesOn(s, needs, st, o, c);
      }
    }
    if needs.ports == {} {
      assert st.(ports := o.ports) == st && Kinds([]) == [];
    } else {
      TaggedKinds(PortSensor, PortDelta(walk, first, needs.ports, st.ports, v));
      PortsAfter(walk, first, needs.ports, st.ports, v, o);
      OthersUnaffected(PortSensor, needs, st.(ports := o.ports), PollPorts(st, needs, probes, first, walk).state, o,
                       o.(ports := v), polled);
    }
  }

  lemma IntegrityUnseen(o: Observed, component: string, was: Option<string>, current: Option<string>, probes: Probes)
    ensures AbsorbAll(o, IntegrityKinds(component, was, current, probes)) == o
  {
    var kinds := IntegrityKinds(component, was, current, probes);
    if kinds != [] {
      AbsorbOne(o, kinds[0]);
    }
  }

  lemma IntegrityAgrees(st: PollState, needs: Needs, probes: Probes, o: Observed, c: Closeness)
    requires Agrees(needs, st, o, c)
    ensures var step := PollIntegrity(st, needs, probes); Agrees(needs, step.state, AbsorbAll(o, Kinds(step.events)), c)
  {
    var a := IntegrityKinds("configuration", st.configHash, probes.configHash, probes);
    var b := IntegrityKinds("binary", st.binaryHash, probes.binaryHash, probes);
    TaggedKinds(IntegritySensor, a + b);
    AbsorbConcat(o, a, b);
    IntegrityUnseen(o, "configuration", st.configHash, probes.configHash, probes);
    IntegrityUnseen(o, "binary", st.binaryHash, probes.binaryHash, probes);
    OthersUnaffected(UsbSensor, needs, st, PollIntegrity(st, needs, probes).state, o, o, c);
  }

  // ---------------------------------------------------------------- cycles

  predicate Attempted(sensor: Sensor, needs: Needs) {
    match sensor
    case WifiSensor => needs.wifi
    case NetworkSensor => needs.network
    case UsbSensor => needs.usb
    case MountSensor => needs.mounts
    case ProcessSensor => needs.processes != {}
    case ServiceSensor => needs.services != {}
    case PortSensor => needs.ports != {}
    case SessionSensor => needs.sessions
    case PowerSensor => needs.power
    case IntegritySensor => needs.integrity
  }

  predicate ProbeOk(sensor: Sensor, probes: Probes) {
    match sensor
    case WifiSensor => probes.wifi.Some?
    case NetworkSensor => probes.network.Some?
    case UsbSensor => probes.usb.Some?
    case MountSensor => probes.mounts.Some?
    case ProcessSensor => probes.processes.Some?
    case ServiceSensor => probes.services.Some?
    case PortSensor => probes.ports.Some?
    case SessionSensor => probes.session.Some?
    case PowerSensor => probes.power.Some?
    case IntegritySensor => true
  }

  lemma SensorAgrees(sensor: Sensor, st: PollState, needs: Needs, probes: Probes, first: bool, walk: Walk, o: Observed, c: Closeness)
    requires Complete(walk) && Faithful(probes, needs) && Agrees(needs, st, o, c)
    requires sensor.PortSensor? ==> first || c.portsPolled
    requires sensor.MountSensor? && first && c.mountsExact ==> st.mounts.Keys == {}
    ensures var step := PollSensor(sensor, st, needs, probes, first, walk);
            Agrees(needs, step.state, AbsorbAll(o, Kinds(step.events)),
                   if sensor.PortSensor? then c.(portsPolled := true) else c)
  {
    if sensor.PortSensor? {
      PortsAgree(st, needs, probes, first, walk, o, c);
    } else if sensor.IntegritySensor? {
      IntegrityAgrees(st, needs, probes, o, c);
    } else if !Attempted(sensor, needs) {
      assert Kinds([]) == [];
    } else if !ProbeOk(sensor, probes) {
      FailKeepsAgreement(sensor, st, probes, needs, o, c);
    } else {
      match sensor
      case WifiSensor => WifiAgrees(st, needs, probes, first, o, c);
      case NetworkSensor => NetworkAgrees(st, needs, probes, first, o, c);
      case UsbSensor => UsbAgrees(st, needs, probes, first, walk, o, c);
      case MountSensor => MountsAgree(st, needs, probes, first, walk, o, c);
      case ProcessSensor => ProcessesAgree(st, needs, probes, first, walk, o, c);
      case ServiceSensor => ServicesAgree(st, needs, probes, first, walk, o, c);
      case SessionSensor => SessionAgrees(st, needs, probes, first, o, c);
      case PowerSensor => PowerAgrees(st, needs, probes, first, o, c);
      case _ =>
    }
  }

  ghost predicate Distinct(sensors: seq<Sensor>) {
    forall i, j | 0 <= i < j < |sensors| :: sensors[i] != sensors[j]
  }

  lemma OrderIsDistinct()
    ensures Distinct(ORDER) && forall sensor: Sensor :: sensor in ORDER
  {
    forall sensor: Sensor ensures sensor in ORDER {
      var i := match sensor
        case WifiSensor => 0 case NetworkSensor => 1 case UsbSensor => 2 case MountSensor => 3 case ProcessSensor => 4
        case ServiceSensor => 5 case PortSensor => 6 case SessionSensor => 7 case PowerSensor => 8
        case IntegritySensor => 9;
      assert ORDER[i] == sensor;
    }
  }

  /** Polling one sensor stores its value if it was probed and touches nothing of the others. */
  function Stored<T>(attempted: bool, probe: Option<T>, was: Option<T>): Option<T> {
    if attempted && probe.Some? then probe else was
  }

  function Kept<T>(attempted: bool, probe: Option<T>, was: T): T {
    if attempted && probe.Some? then probe.value else was
  }

  /** The state after polling `sensors`, field by field. */
  ghost predicate Polled(sensors: seq<Sensor>, st: PollState, needs: Needs, probes: Probes, next: PollState) {
    && next.initialized == st.initialized
    && next.wifi == Stored(WifiSensor in sensors && needs.wifi, probes.wifi, st.wifi)
    && next.network == Stored(NetworkSensor in sensors && needs.network, probes.network, st.network)
    && next.mounts == Kept(MountSensor in sensors && needs.mounts, probes.mounts, st.mounts)
    && next.processes == Kept(ProcessSensor in sensors && needs.processes != {}, probes.processes, st.processes)
    && next.services == Kept(ServiceSensor in sensors && needs.services != {}, probes.services, st.services)
    && next.ports == Kept(PortSensor in sensors && needs.ports != {}, probes.ports, st.ports)
    && next.session == Stored(SessionSensor in sensors && needs.sessions, probes.session, st.session)
    && next.power == Stored(PowerSensor in sensors && needs.power, probes.power, st.power)
  }

  /** What polling one sensor leaves behind, without the events. */
  function NextState(sensor: Sensor, st: PollState, needs: Needs, probes: Probes): PollState {
    if !Attempted(sensor, needs) then st
    else if !ProbeOk(sensor, probes) then st.(failed := st.failed + {sensor})
    else match sensor
         case WifiSensor => Heal(st, sensor).(wifi := probes.wifi)
         case NetworkSensor => Heal(st, sensor).(network := probes.network)
         case UsbSensor => Heal(st, sensor).(usb := probes.usb.value)
         case MountSensor => Heal(st, sensor).(mounts := probes.mounts.value)
         case ProcessSensor => Heal(st, sensor).(processes := probes.processes.value)
         case ServiceSensor => Heal(st, sensor).(services := probes.services.value)
         case PortSensor => Heal(st, sensor).(ports := probes.ports.value)
         case SessionSensor => Heal(st, sensor).(session := probes.session)
         case PowerSensor => Heal(st, sensor).(power := probes.power)
         case IntegritySensor => st.(configHash := Later(st.configHash, probes.configHash),
                                     binaryHash := Later(st.binaryHash, probes.binaryHash))
  }

  lemma StepState(sensor: Sensor, st: PollState, needs: Needs, probes: Probes, first: bool, walk: Walk)
    ensures PollSensor(sensor, st, needs, probes, first, walk).state == NextState(sensor, st, needs, probes)
  {
    if sensor in st.failed {
      assert st.failed + {sensor} == st.failed;
    }
  }

  lemma PolledNext(sensor: Sensor, st: PollState, needs: Needs, probes: Probes)
    ensures Polled([sensor], st, needs, probes, NextState(sensor, st, needs, probes))
  {
    if Attempted(sensor, needs) && ProbeOk(sensor, probes) {
      if Collects(sensor) {
        PolledCollection(sensor, st, needs, probes);
      } else {
        PolledScalar(sensor, st, needs, probes);
      }
    } else {
      PolledNothing(sensor, st, needs, probes, NextState(sensor, st, needs, probes).failed);
    }
  }

  lemma PolledNothing(sensor: Sensor, st: PollState, needs: Needs, probes: Probes, failed: set<Sensor>)
    requires !(Attempted(sensor, needs) && ProbeOk(sensor, probes))
    ensures Polled([sensor], st, needs, probes, st.(failed := failed))
  {
    assert forall s :: s in [sensor] <==> s == sensor;
  }

  predicate Collects(sensor: Sensor) {
    sensor.UsbSensor? || sensor.MountSensor? || sensor.ProcessSensor? || sensor.ServiceSensor? || sensor.PortSensor?
  }

  lemma PolledScalar(sensor: Sensor, st: PollState, needs: Needs, probes: Probes)
    requires Attempted(sensor, needs) && ProbeOk(sensor, probes) && !Collects(sensor)
    ensures Polled([sensor], st, needs, probes, NextState(sensor, st, needs, probes))
  {
    assert forall s :: s in [sensor] <==> s == sensor;
  }

  lemma PolledCollection(sensor: Sensor, st: PollState, needs: Needs, probes: Probes)
    requires Attempted(sensor, needs) && ProbeOk(sensor, probes) && Collects(sensor)
    ensures Polled([sensor], st, needs, probes, NextState(sensor, st, needs, probes))
  {
    assert forall s :: s in [sensor] <==> s == sensor;
  }

  lemma PolledCompose(front: seq<Sensor>, last: Sensor, st: PollState, needs: Needs, probes: Probes, mid: PollState, next: PollState)
    requires Polled(front, st, needs, probes, mid) && Polled([last], mid, needs, probes, next)
    ensures Polled(front + [last], st, needs, probes, next)
  {
  }

  lemma {:induction false} PolledState(sensors: seq<Sensor>, st: PollState, needs: Needs, probes: Probes, first: bool, walk: Walk)
    ensures Polled(sensors, st, needs, probes, PollAll(sensors, st, needs, probes, first, walk).state)
  {
    if sensors != [] {
      var front, last := sensors[..|sensors| - 1], sensors[|sensors| - 1];
      var mid := PollAll(front, st, needs, probes, first, walk).state;
      PolledState(front, st, needs, probes, first, walk);
      StepState(last, mid, needs, probes, first, walk);
      PolledNext(last, mid, needs, probes);
      PolledCompose(front, last, st, needs, probes, mid, PollSensor(last, mid, needs, probes, first, walk).state);
      assert sensors == front + [last];
    }
  }

  lemma MountsUntouched(sensors: seq<Sensor>, st: PollState, needs: Needs, probes: Probes, first: bool, walk: Walk)
    requires MountSensor !in sensors
    ensures PollAll(sensors, st, needs, probes, first, walk).state.mounts == st.mounts
  {
    PolledState(sensors, st, needs, probes, first, walk);
  }

  function CloserBy(sensors: seq<Sensor>, c: Closeness): Closeness {
    if PortSensor in sensors then c.(portsPolled := true) else c
  }

  lemma EventsCompose(o: Observed, a: seq<Emission>, b: seq<Emission>)
    ensures AbsorbAll(o, Kinds(a + b)) == AbsorbAll(AbsorbAll(o, Kinds(a)), Kinds(b))
  {
    assert Kinds(a + b) == Kinds(a) + Kinds(b);
    AbsorbConcat(o, Kinds(a), Kinds(b));
  }

  lemma {:induction false} SensorsAgree(sensors: seq<Sensor>, st: PollState, needs: Needs, probes: Probes, walk: Walk, o: Observed, c: Closeness)
    requires Distinct(sensors) && Complete(walk) && Faithful(probes, needs) && Agrees(needs, st, o, c)
    requires c.portsPolled == st.initialized && (!st.initialized && c.mountsExact ==> st.mounts.Keys == {})
    ensures var step := PollAll(sensors, st, needs, probes, !st.initialized, walk);
            Agrees(needs, step.state, AbsorbAll(o, Kinds(step.events)), CloserBy(sensors, c))
  {
    if sensors == [] {
      assert Kinds([]) == [];
    } else {
      var front, last, first := sensors[..|sensors| - 1], sensors[|sensors| - 1], !st.initialized;
      SensorsAgree(front, st, needs, probes, walk, o, c);
      if last.MountSensor? {
        assert last !in front;
        MountsUntouched(front, st, needs, probes, first, walk);
      }
      MembersOfLast(sensors);
      var before := PollAll(front, st, needs, probes, first, walk);
      SensorAgrees(last, before.state, needs, probes, first, walk, AbsorbAll(o, Kinds(before.events)), CloserBy(front, c));
      EventsCompose(o, before.events, PollSensor(last, before.state, needs, probes, first, walk).events);
    }
  }

  lemma CycleAgrees(st: PollState, needs: Needs, probes: Probes, walk: Walk, o: Observed, c: Closeness)
    requires Complete(walk) && Faithful(probes, needs) && Agrees(needs, st, o, c)
    requires c.portsPolled == st.initialized && (!st.initialized && c.mountsExact ==> st.mounts.Keys == {})
    ensures var step := Cycle(st, needs, probes, walk);
            Agrees(needs, step.state, AbsorbAll(o, Kinds(step.events)), c.(portsPolled := true))
  {
    OrderIsDistinct();
    SensorsAgree(ORDER, st, needs, probes, walk, o, c);
    var polled := PollAll(ORDER, st, needs, probes, !st.initialized, walk);
    var p := AbsorbAll(o, Kinds(polled.events));
    OthersUnaffected(UsbSensor, needs, polled.state, polled.state.(initialized := true), p, p, c.(portsPolled := true));
  }

  // ---------------------------------------------------------------- runs

  /** Cycles, resets of the polling state after a crashed cycle, and events from elsewhere in between. */
  datatype PollStep = Poll(probes: Probes, walk: Walk) | Reset(error: string) | Other(kind: EventKind)

  /** Events of the other sensors, manual triggers and failures say nothing about the polled state. */
  predicate Unrelated(kind: EventKind) {
    kind.Tick? || kind.File? || kind.Usb? || kind.Hotkey? || kind.Integrity? || kind.Manual? || kind.SensorFailure?
  }

  ghost predicate Proper(needs: Needs, steps: seq<PollStep>) {
    forall i | 0 <= i < |steps| ::
      match steps[i]
      case Poll(probes, walk) => Faithful(probes, needs) && Complete(walk)
      case Reset(_) => true
      case Other(kind) => Unrelated(kind)
  }

  function StateAfter(needs: Needs, steps: seq<PollStep>): PollState {
    if steps == [] then UNPOLLED
    else
      var st := StateAfter(needs, steps[..|steps| - 1]);
      match steps[|steps| - 1]
      case Poll(probes, walk) => Cycle(st, needs, probes, walk).state
      case Reset(_) => UNPOLLED
      case Other(_) => st
  }

  /** The snapshot that has replayed everything emitted so far. */
  function SeenAfter(needs: Needs, steps: seq<PollStep>): Observed {
    if steps == [] then UNSEEN
    else
      var before := steps[..|steps| - 1];
      var o := SeenAfter(needs, before);
      match steps[|steps| - 1]
      case Poll(probes, walk) => AbsorbAll(o, Kinds(Cycle(StateAfter(needs, before), needs, probes, walk).events))
      case Reset(error) => Absorb(o, EventKind.SensorFailure("polling", error))
      case Other(kind) => Absorb(o, kind)
  }

  /** The probe results since the last reset, oldest first. */
  function ProbesSince(steps: seq<PollStep>): seq<Probes> {
    if steps == [] then []
    else match steps[|steps| - 1]
         case Poll(probes, _) => ProbesSince(steps[..|steps| - 1]) + [probes]
         case Reset(_) => []
         case Other(_) => ProbesSince(steps[..|steps| - 1])
  }

  function LastOk<T>(pick: Probes -> Option<T>, h: seq<Probes>): Option<T> {
    if h == [] then None
    else if pick(h[|h| - 1]).Some? then pick(h[|h| - 1]) else LastOk(pick, h[..|h| - 1])
  }

  function PickWifi(p: Probes): Option<WifiState> { p.wifi }
  function PickNetwork(p: Probes): Option<NetworkState> { p.network }
  function PickMounts(p: Probes): Option<MountTable> { p.mounts }
  function PickProcesses(p: Probes): Option<map<string, bool>> { p.processes }
  function PickServices(p: Probes): Option<map<string, bool>> { p.services }
  function PickPorts(p: Probes): Option<set<PortKey>> { p.ports }
  function PickSession(p: Probes): Option<SessionInfo> { p.session }
  function PickPower(p: Probes): Option<PowerState> { p.power }

  predicate NeverReset(steps: seq<PollStep>) {
    forall i | 0 <= i < |steps| :: !steps[i].Reset?
  }

  lemma {:induction false} RunAgrees(needs: Needs, steps: seq<PollStep>)
    requires Proper(needs, steps)
    ensures var st := StateAfter(needs, steps);
            && Agrees(needs, st, SeenAfter(needs, steps), Closeness(NeverReset(steps), st.initialized))
            && (!st.initialized ==> st == UNPOLLED)
  {
    if steps != [] {
      var before, step := steps[..|steps| - 1], steps[|steps| - 1];
      RunAgrees(needs, before);
      var st, o := StateAfter(needs, before), SeenAfter(needs, before);
      assert NeverReset(steps) <==> NeverReset(before) && !step.Reset?;
      match step
      case Poll(probes, walk) =>
        CycleAgrees(st, needs, probes, walk, o, Closeness(NeverReset(before), st.initialized));
      case Reset(_) => ResetAgrees(needs, st, o, Closeness(NeverReset(before), st.initialized));
      case Other(kind) =>
    }
  }

  lemma ResetAgrees(needs: Needs, st: PollState, o: Observed, c: Closeness)
    requires Agrees(needs, st, o, c)
    ensures Agrees(needs, UNPOLLED, o, Closeness(false, false))
  {
    forall s ensures AgreesOn(s, needs, UNPOLLED, o, Closeness(false, false)) {
      assert AgreesOn(s, needs, st, o, c);
    }
  }

  /** The polling state remembers, sensor by sensor, the last successful probe since the reset. */
  ghost predicate Remembers(needs: Needs, st: PollState, h: seq<Probes>) {
    && (needs.wifi ==> st.wifi == LastOk(PickWifi, h))
    && (needs.network ==> st.network == LastOk(PickNetwork, h))
    && (needs.mounts ==> var v := LastOk(PickMounts, h); v.Some? ==> st.mounts == v.value)
    && (needs.processes != {} ==> var v := LastOk(PickProcesses, h); v.Some? ==> st.processes == v.value)
    && (needs.services != {} ==> var v := LastOk(PickServices, h); v.Some? ==> st.services == v.value)
    && (needs.ports != {} ==> var v := LastOk(PickPorts, h); v.Some? ==> st.ports == v.value)
    && (needs.sessions ==> st.session == LastOk(PickSession, h))
    && (needs.power ==> st.power == LastOk(PickPower, h))
    && (h != [] ==> st.initialized)
  }

  lemma LastOkMore<T>(pick: Probes -> Option<T>, h: seq<Probes>, probes: Probes)
    ensures LastOk(pick, h + [probes]) == Stored(true, pick(probes), LastOk(pick, h))
  {
    assert (h + [probes])[..|h|] == h;
  }

  lemma PolledRemembers(needs: Needs, st: PollState, probes: Probes, next: PollState, h: seq<Probes>)
    requires Remembers(needs, st, h) && Polled(ORDER, st, needs, probes, next) && forall sensor: Sensor :: sensor in ORDER
    ensures Remembers(needs, next.(initialized := true), h + [probes])
  {
    LastOkMore(PickWifi, h, probes);
    LastOkMore(PickNetwork, h, probes);
    LastOkMore(PickMounts, h, probes);
    LastOkMore(PickProcesses, h, probes);
    LastOkMore(PickServices, h, probes);
    LastOkMore(PickPorts, h, probes);
    LastOkMore(PickSession, h, probes);
    LastOkMore(PickPower, h, probes);
  }

  lemma CycleRemembers(needs: Needs, st: PollState, probes: Probes, walk: Walk, h: seq<Probes>)
    requires Remembers(needs, st, h)
    ensures Remembers(needs, Cycle(st, needs, probes, walk).state, h + [probes])
  {
    OrderIsDistinct();
    PolledState(ORDER, st, needs, probes, !st.initialized, walk);
    PolledRemembers(needs, st, probes, PollAll(ORDER, st, needs, probes, !st.initialized, walk).state, h);
  }

  lemma {:induction false} RunRemembers(needs: Needs, steps: seq<PollStep>)
    ensures Remembers(needs, StateAfter(needs, steps), ProbesSince(steps))
  {
    if steps != [] {
      var before := steps[..|steps| - 1];
      RunRemembers(needs, before);
      match steps[|steps| - 1]
      case Poll(probes, walk) => CycleRemembers(needs, StateAfter(needs, before), probes, walk, ProbesSince(before));
      case Reset(_) =>
      case Other(_) =>
    }
  }

  /** The snapshot equals the last successful probes in `h`; mounts exactly, or at least, depending on `exact`. */
  ghost predicate Follows(needs: Needs, o: Observed, h: seq<Probes>, exact: bool) {
    && (needs.wifi ==> var v := LastOk(PickWifi, h); v.Some? ==> o.wifi == v.value)
    && (needs.network ==> var v := LastOk(PickNetwork, h); v.Some? ==> o.network == v.value)
    && (needs.mounts ==> var v := LastOk(PickMounts, h);
                         v.Some? ==> if exact then o.mounts == v.value.Keys else v.value.Keys <= o.mounts)
    && (needs.processes != {} ==> var v := LastOk(PickProcesses, h); v.Some? ==> o.processes == RunningNames(v.value))
    && (needs.services != {} ==> var v := LastOk(PickServices, h); v.Some? ==> o.services == v.value)
    && (needs.ports != {} ==> var v := LastOk(PickPorts, h); v.Some? ==> o.ports == v.value)
    && (needs.sessions ==> var v := LastOk(PickSession, h);
                           v.Some? ==> o.session == SessionView(Some(v.value.state), v.value.user, v.value.remote))
    && (needs.power ==> var v := LastOk(PickPower, h); v.Some? ==> o.power == v.value)
  }

  lemma {:induction false} LastOkFaithful(needs: Needs, steps: seq<PollStep>)
    requires Proper(needs, steps)
    ensures var v := LastOk(PickProcesses, ProbesSince(steps)); v.Some? ==> v.value.Keys == needs.processes
    ensures var v := LastOk(PickServices, ProbesSince(steps)); v.Some? ==> v.value.Keys == needs.services
  {
    if steps != [] {
      var before := steps[..|steps| - 1];
      LastOkFaithful(needs, before);
      match steps[|steps| - 1]
      case Poll(probes, _) => assert (ProbesSince(before) + [probes])[..|ProbesSince(before)|] == ProbesSince(before);
      case _ =>
    }
  }

  lemma PayloadsFollowProbes(needs: Needs, steps: seq<PollStep>)
    requires Proper(needs, steps)
    ensures Follows(needs, SeenAfter(needs, steps), ProbesSince(steps), NeverReset(steps))
  {
    RunAgrees(needs, steps);
    RunRemembers(needs, steps);
    LastOkFaithful(needs, steps);
    AgreementMeansFollowing(needs, StateAfter(needs, steps), SeenAfter(needs, steps), ProbesSince(steps), NeverReset(steps));
  }

  /** The payloads of everything sent during a run, in order. */
  function SentKinds(needs: Needs, steps: seq<PollStep>): seq<EventKind> {
    if steps == [] then []
    else
      var before := steps[..|steps| - 1];
      SentKinds(needs, before) +
      match steps[|steps| - 1]
      case Poll(probes, walk) => Kinds(Cycle(StateAfter(needs, before), needs, probes, walk).events)
      case Reset(error) => [EventKind.SensorFailure("polling", error)]
      case Other(kind) => [kind]
  }

  predicate Carry(events: seq<Event>, kinds: seq<EventKind>) {
    |events| == |kinds| && forall i | 0 <= i < |kinds| :: events[i].kind == kinds[i]
  }

  lemma {:induction false} SeenIsAbsorbed(needs: Needs, steps: seq<PollStep>)
    ensures SeenAfter(needs, steps) == AbsorbAll(UNSEEN, SentKinds(needs, steps))
  {
    if steps != [] {
      var before := steps[..|steps| - 1];
      SeenIsAbsorbed(needs, before);
      match steps[|steps| - 1]
      case Poll(probes, walk) =>
        AbsorbConcat(UNSEEN, SentKinds(needs, before), Kinds(Cycle(StateAfter(needs, before), needs, probes, walk).events));
      case Reset(error) => AbsorbLast(UNSEEN, SentKinds(needs, before), EventKind.SensorFailure("polling", error));
      case Other(kind) => AbsorbLast(UNSEEN, SentKinds(needs, before), kind);
    }
  }

  lemma AbsorbLast(o: Observed, kinds: seq<EventKind>, kind: EventKind)
    ensures AbsorbAll(o, kinds + [kind]) == Absorb(AbsorbAll(o, kinds), kind)
  {
    assert (kinds + [kind])[..|kinds|] == kinds;
  }

  /** What a snapshot that started empty and replayed everything sent shows of the sensors. */
  lemma ReplayShows(needs: Needs, steps: seq<PollStep>, now: int, mode: string, events: seq<Event>)
    requires Carry(events, SentKinds(needs, steps))
    ensures Seen(Replay(DefaultSnapshot(now, mode), events)) == SeenAfter(needs, steps)
  {
    ReplayAbsorbs(DefaultSnapshot(now, mode), events, SentKinds(needs, steps));
    SeenIsAbsorbed(needs, steps);
  }

  /** After any cycles with any failures, and any unrelated events in between, the snapshot that has replayed the events
      equals the last successful probe of every required sensor. Resets of the polling state keep this, except that stale
      mounts may stay. */
  lemma SnapshotFollowsProbes(needs: Needs, steps: seq<PollStep>, now: int, mode: string, events: seq<Event>)
    requires Proper(needs, steps) && Carry(events, SentKinds(needs, steps))
    ensures Follows(needs, Seen(Replay(DefaultSnapshot(now, mode), events)), ProbesSince(steps), NeverReset(steps))
  {
    ReplayShows(needs, steps, now, mode, events);
    PayloadsFollowProbes(needs, steps);
  }

  lemma AgreementMeansFollowing(needs: Needs, st: PollState, o: Observed, h: seq<Probes>, exact: bool)
    requires Agrees(needs, st, o, Closeness(exact, st.initialized)) && Remembers(needs, st, h)
    requires var v := LastOk(PickProcesses, h); v.Some? ==> v.value.Keys == needs.processes
    requires var v := LastOk(PickServices, h); v.Some? ==> v.value.Keys == needs.services
    ensures Follows(needs, o, h, exact)
  {
    var c := Closeness(exact, st.initialized);
    assert AgreesOn(WifiSensor, needs, st, o, c) && AgreesOn(NetworkSensor, needs, st, o, c);
    assert AgreesOn(MountSensor, needs, st, o, c) && AgreesOn(ProcessSensor, needs, st, o, c);
    assert AgreesOn(ServiceSensor, needs, st, o, c) && AgreesOn(PortSensor, needs, st, o, c);
    assert AgreesOn(SessionSensor, needs, st, o, c) && AgreesOn(PowerSensor, needs, st, o, c);
  }

  /** A mount that vanished across a reset stays in the snapshot. */
  lemma StaleMountSurvivesReset(needs: Needs, path: Path, probes: Probes, walk: Walk, error: string)
    requires Complete(walk) && needs == NOTHING.(mounts := true)
    requires probes.mounts == Some(map[path := None]) && Faithful(probes, needs)
    ensures var steps := [Poll(probes, walk), Reset(error), Poll(probes.(mounts := Some(map[])), walk)];
            path in SeenAfter(needs, steps).mounts && LastOk(PickMounts, ProbesSince(steps)) == Some(map[])
  {
    var gone := probes.(mounts := Some(map[]));
    var one, two := [Poll(probes, walk)], [Poll(probes, walk), Reset(error)];
    var steps := two + [Poll(gone, walk)];
    assert steps == [Poll(probes, walk), Reset(error), Poll(gone, walk)];
    assert steps[..2] == two && two[..1] == one && one[..0] == [];
    PayloadsFollowProbes(needs, one);
    assert ProbesSince(one) == [] + [probes] && [probes][..0] == [];
    assert path in SeenAfter(needs, one).mounts;
    assert StateAfter(needs, two) == UNPOLLED && path in SeenAfter(needs, two).mounts;
    FirstCycleKeepsMounts(needs, gone, walk, SeenAfter(needs, two), path);
    assert ProbesSince(steps) == [] + [gone];
  }

  lemma FirstCycleKeepsMounts(needs: Needs, probes: Probes, walk: Walk, o: Observed, path: Path)
    requires path in o.mounts
    ensures path in AbsorbAll(o, Kinds(Cycle(UNPOLLED, needs, probes, walk).events)).mounts
  {
    FirstPollNeverUnmounts(ORDER, needs, probes, walk);
    NoUnmountKeepsMounts(o, Kinds(Cycle(UNPOLLED, needs, probes, walk).events), path);
  }

  predicate Unmounts(kind: EventKind) {
    kind.Mount? && kind.device.Removed?
  }

  lemma {:induction false} NoUnmountKeepsMounts(o: Observed, kinds: seq<EventKind>, path: Path)
    requires path in o.mounts && forall i | 0 <= i < |kinds| :: !Unmounts(kinds[i])
    ensures path in AbsorbAll(o, kinds).mounts
  {
    if kinds != [] {
      NoUnmountKeepsMounts(o, kinds[..|kinds| - 1], path);
    }
  }

  lemma {:induction false} FirstPollNeverUnmounts(sensors: seq<Sensor>, needs: Needs, probes: Probes, walk: Walk)
    ensures forall e | e in PollAll(sensors, UNPOLLED, needs, probes, true, walk).events :: !Unmounts(e.kind)
  {
    if sensors != [] {
      FirstPollNeverUnmounts(sensors[..|sensors| - 1], needs, probes, walk);
    }
  }

  // ---------------------------------------------------------------- failure reports

  predicate ReportsFailure(events: seq<Emission>, sensor: Sensor) {
    exists e | e in events :: e.sensor == sensor && e.kind.SensorFailure?
  }

  lemma EventsCarryTheirSensor(sensor: Sensor, st: PollState, needs: Needs, probes: Probes, first: bool, walk: Walk)
    ensures forall e | e in PollSensor(sensor, st, needs, probes, first, walk).events :: e.sensor == sensor
  {
  }

  lemma SuccessReportsNothing(sensor: Sensor, st: PollState, needs: Needs, probes: Probes, first: bool, walk: Walk)
    requires ProbeOk(sensor, probes) && !sensor.IntegritySensor?
    ensures forall e | e in PollSensor(sensor, st, needs, probes, first, walk).events :: !e.kind.SensorFailure?
    ensures Attempted(sensor, needs) ==> sensor !in PollSensor(sensor, st, needs, probes, first, walk).state.failed
  {
  }

  lemma OthersKeepMarks(polled: Sensor, st: PollState, needs: Needs, probes: Probes, first: bool, walk: Walk, sensor: Sensor)
    requires polled != sensor || !Attempted(sensor, needs)
    ensures var step := PollSensor(polled, st, needs, probes, first, walk);
            (sensor in step.state.failed <==> sensor in st.failed) && (polled == sensor ==> step.events == [])
  {
    StepState(polled, st, needs, probes, first, walk);
    MarksOfOthers(polled, st, needs, probes, sensor);
    if polled == sensor {
      IdleStep(sensor, st, needs, probes, first, walk);
    }
  }

  lemma MarksOfOthers(polled: Sensor, st: PollState, needs: Needs, probes: Probes, sensor: Sensor)
    requires polled != sensor || !Attempted(sensor, needs)
    ensures sensor in NextState(polled, st, needs, probes).failed <==> sensor in st.failed
  {
  }

  lemma IdleStep(sensor: Sensor, st: PollState, needs: Needs, probes: Probes, first: bool, walk: Walk)
    requires !Attempted(sensor, needs)
    ensures PollSensor(sensor, st, needs, probes, first, walk) == Step(st, [])
  {
  }

  lemma StepReports(polled: Sensor, st: PollState, needs: Needs, probes: Probes, first: bool, walk: Walk, sensor: Sensor)
    requires !sensor.IntegritySensor?
    ensures var step := PollSensor(polled, st, needs, probes, first, walk);
            && (ReportsFailure(step.events, sensor) <==>
                  polled == sensor && Attempted(sensor, needs) && !ProbeOk(sensor, probes) && sensor !in st.failed)
            && (sensor in step.state.failed <==>
                  if polled == sensor && Attempted(sensor, needs) then !ProbeOk(sensor, probes) else sensor in st.failed)
  {
    EventsCarryTheirSensor(polled, st, needs, probes, first, walk);
    if polled != sensor || !Attempted(sensor, needs) {
      OthersKeepMarks(polled, st, needs, probes, first, walk, sensor);
    } else if ProbeOk(sensor, probes) {
      SuccessReportsNothing(sensor, st, needs, probes, first, walk);
    } else {
      FailureStep(sensor, st, needs, probes, first, walk);
      if sensor !in st.failed {
        assert Fail(st, sensor, probes).events[0] in Fail(st, sensor, probes).events;
      }
    }
  }

  lemma FailureStep(sensor: Sensor, st: PollState, needs: Needs, probes: Probes, first: bool, walk: Walk)
    requires Attempted(sensor, needs) && !ProbeOk(sensor, probes)
    ensures PollSensor(sensor, st, needs, probes, first, walk) == Fail(st, sensor, probes)
  {
  }

  lemma {:induction false} PollReports(sensors: seq<Sensor>, st: PollState, needs: Needs, probes: Probes, first: bool, walk: Walk, sensor: Sensor)
    requires Distinct(sensors) && !sensor.IntegritySensor?
    ensures var step := PollAll(sensors, st, needs, probes, first, walk);
            && (ReportsFailure(step.events, sensor) <==>
                  sensor in sensors && Attempted(sensor, needs) && !ProbeOk(sensor, probes) && sensor !in st.failed)
            && (sensor in step.state.failed <==>
                  if sensor in sensors && Attempted(sensor, needs) then !ProbeOk(sensor, probes) else sensor in st.failed)
  {
    if sensors != [] {
      var front, last := sensors[..|sensors| - 1], sensors[|sensors| - 1];
      var before := PollAll(front, st, needs, probes, first, walk);
      PollReports(front, st, needs, probes, first, walk, sensor);
      StepReports(last, before.state, needs, probes, first, walk, sensor);
      MembersOfLast(sensors);
      assert last !in front;
      var step := PollSensor(last, before.state, needs, probes, first, walk);
      assert ReportsFailure(before.events + step.events, sensor) <==>
             ReportsFailure(before.events, sensor) || ReportsFailure(step.events, sensor);
    }
  }

  lemma {:induction false} FailedMeansLastFailed(needs: Needs, steps: seq<PollStep>, sensor: Sensor)
    requires !sensor.IntegritySensor? && Attempted(sensor, needs)
    ensures var h := ProbesSince(steps);
            sensor in StateAfter(needs, steps).failed <==> h != [] && !ProbeOk(sensor, h[|h| - 1])
  {
    if steps != [] {
      var before := steps[..|steps| - 1];
      FailedMeansLastFailed(needs, before, sensor);
      match steps[|steps| - 1]
      case Poll(probes, walk) =>
        OrderIsDistinct();
        var st := StateAfter(needs, before);
        PollReports(ORDER, st, needs, probes, !st.initialized, walk, sensor);
      case _ =>
    }
  }

  /** A failing sensor is reported exactly on its transition into failure: the probe fails now and did not fail in the
      cycle before. */
  lemma FailureReportedOnTransition(needs: Needs, steps: seq<PollStep>, probes: Probes, walk: Walk, sensor: Sensor)
    requires !sensor.IntegritySensor? && Attempted(sensor, needs)
    ensures var h := ProbesSince(steps);
            ReportsFailure(Cycle(StateAfter(needs, steps), needs, probes, walk).events, sensor) <==>
            !ProbeOk(sensor, probes) && (h == [] || ProbeOk(sensor, h[|h| - 1]))
  {
    FailedMeansLastFailed(needs, steps, sensor);
    OrderIsDistinct();
    var st := StateAfter(needs, steps);
    PollReports(ORDER, st, needs, probes, !st.initialized, walk, sensor);
  }

  /** Integrity is the exception: an unreadable file is reported in every cycle. */
  lemma IntegrityReportsEveryTime(st: PollState, needs: Needs, probes: Probes)
    requires needs.integrity
    ensures ReportsFailure(PollIntegrity(st, needs, probes).events, IntegritySensor) <==>
            probes.configHash.None? || probes.binaryHash.None?
  {
    var a := IntegrityKinds("configuration", st.configHash, probes.configHash, probes);
    var b := IntegrityKinds("binary", st.binaryHash, probes.binaryHash, probes);
    var events := PollIntegrity(st, needs, probes).events;
    if probes.configHash.None? {
      assert events[0] == Emission(IntegritySensor, a[0]) && events[0] in events;
    }
    if probes.binaryHash.None? {
      assert events[|a|] == Emission(IntegritySensor, b[0]) && events[|a|] in events;
    }
  }
}
