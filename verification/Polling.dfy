/** Polling sensors: each cycle turns probe results into change events. */
module Polling {
  import opened Options
  import opened Config
  import opened Events
  import opened Requirements

  datatype Sensor = WifiSensor | NetworkSensor | UsbSensor | MountSensor | ProcessSensor | ServiceSensor | PortSensor
                  | SessionSensor | PowerSensor | IntegritySensor

  /** The name under which a sensor's events and failures are published. */
  function Label(sensor: Sensor): string {
    match sensor
    case WifiSensor => "wifi" case NetworkSensor => "network" case UsbSensor => "usb" case MountSensor => "mounts"
    case ProcessSensor => "processes" case ServiceSensor => "services" case PortSensor => "ports"
    case SessionSensor => "sessions" case PowerSensor => "power" case IntegritySensor => "integrity"
  }

  datatype UsbDevice = UsbDevice(vendorId: Option<string>, productId: Option<string>, serial: Option<string>)
  datatype SessionInfo = SessionInfo(state: SessionState, user: Option<string>, remote: bool)

  type MountTable = map<Path, Option<string>>

  /** What one cycle's probes returned; `None` is a failure, with its text in `error`; `detail` names a changed file. */
  datatype Probes = Probes(
    wifi: Option<WifiState>, network: Option<NetworkState>, usb: Option<set<UsbDevice>>, mounts: Option<MountTable>,
    processes: Option<map<string, bool>>, services: Option<map<string, bool>>, ports: Option<set<PortKey>>,
    session: Option<SessionInfo>, power: Option<PowerState>, configHash: Option<string>, binaryHash: Option<string>,
    error: Sensor -> string, detail: string -> string)

  datatype PollState = PollState(
    initialized: bool, wifi: Option<WifiState>, network: Option<NetworkState>, usb: set<UsbDevice>, mounts: MountTable,
    processes: map<string, bool>, services: map<string, bool>, ports: set<PortKey>, session: Option<SessionInfo>,
    power: Option<PowerState>, configHash: Option<string>, binaryHash: Option<string>, failed: set<Sensor>)

  const UNPOLLED := PollState(false, None, None, {}, map[], map[], map[], {}, None, None, None, None, {})

  /** The order in which sorted collections are walked, whatever it is. */
  datatype Walk = Walk(paths: set<Path> -> seq<Path>, names: set<string> -> seq<string>,
                       ports: set<PortKey> -> seq<PortKey>, devices: set<UsbDevice> -> seq<UsbDevice>)

  ghost predicate Complete(walk: Walk) {
    && (forall s, x :: x in walk.paths(s) <==> x in s)
    && (forall s, x :: x in walk.names(s) <==> x in s)
    && (forall s, x :: x in walk.ports(s) <==> x in s)
    && (forall s, x :: x in walk.devices(s) <==> x in s)
  }

  datatype Emission = Emission(sensor: Sensor, kind: EventKind)

  function Tagged(sensor: Sensor, kinds: seq<EventKind>): seq<Emission> {
    seq(|kinds|, i requires 0 <= i < |kinds| => Emission(sensor, kinds[i]))
  }

  function Each<T>(f: T -> EventKind, items: seq<T>): seq<EventKind> {
    seq(|items|, i requires 0 <= i < |items| => f(items[i]))
  }

  // ---------------------------------------------------------------- deltas

  function WifiDelta(first: bool, was: Option<WifiState>, v: WifiState): seq<EventKind> {
    if first || was != Some(v) then [EventKind.Wifi(v.connected, v.ssid, v.bssid)] else []
  }

  function NetworkDelta(first: bool, was: Option<NetworkState>, v: NetworkState): seq<EventKind> {
    if first || was != Some(v) then [EventKind.Network(v.online, v.iface, v.vpn)] else []
  }

  function PowerDelta(first: bool, was: Option<PowerState>, v: PowerState): seq<EventKind> {
    if first || was != Some(v) then [EventKind.Power(v.onAc, v.batteryPercent, v.lidClosed)] else []
  }

  /** Coming out of a logged-out state is reported as a login first. */
  function SessionDelta(first: bool, was: Option<SessionInfo>, v: SessionInfo): seq<EventKind> {
    if first || was != Some(v) then
      (if v.state != LoggedOut && (first || (was.Some? && was.value.state == LoggedOut))
       then [EventKind.Session(LoggedIn, v.user, v.remote)] else []) +
      [EventKind.Session(v.state, v.user, v.remote)]
    else []
  }

  function UsbKind(action: DeviceAction): UsbDevice -> EventKind {
    (d: UsbDevice) => EventKind.Usb(action, d.vendorId, d.productId, d.serial)
  }

  function UsbDelta(walk: Walk, first: bool, was: set<UsbDevice>, v: set<UsbDevice>): seq<EventKind> {
    if first then Each(UsbKind(Added), walk.devices(v))
    else Each(UsbKind(Added), walk.devices(v - was)) + Each(UsbKind(Removed), walk.devices(was - v))
  }

  function MountKind(action: DeviceAction, table: MountTable): Path -> EventKind {
    (p: Path) => EventKind.Mount(action, p, if p in table then table[p] else None)
  }

  /** The paths of one table that another does not have, in walking order. */
  function Missing(walk: Walk, table: MountTable, other: MountTable): seq<Path> {
    Filter((p: Path) => p !in other, walk.paths(table.Keys))
  }

  function MountDelta(walk: Walk, first: bool, was: MountTable, v: MountTable): seq<EventKind> {
    if first then Each(MountKind(Added, v), walk.paths(v.Keys))
    else Each(MountKind(Added, v), Missing(walk, v, was)) + Each(MountKind(Removed, was), Missing(walk, was, v))
  }

  predicate On(v: map<string, bool>, name: string) {
    name in v && v[name]
  }

  predicate HasChanged(first: bool, was: map<string, bool>, v: map<string, bool>, name: string) {
    first || name !in was || was[name] != On(v, name)
  }

  function ProcessKind(v: map<string, bool>): string -> EventKind {
    (n: string) => EventKind.Process(n, On(v, n))
  }

  function ServiceKind(v: map<string, bool>): string -> EventKind {
    (n: string) => EventKind.Service(n, On(v, n))
  }

  /** The changed names among those probed, in walking order. */
  function ChangedNames(walk: Walk, first: bool, was: map<string, bool>, v: map<string, bool>): seq<string> {
    Filter((n: string) => HasChanged(first, was, v, n), walk.names(v.Keys))
  }

  function PortKind(v: set<PortKey>): PortKey -> EventKind {
    (p: PortKey) => EventKind.Port(p.1, p.0, p in v)
  }

  function PortDelta(walk: Walk, first: bool, required: set<PortKey>, was: set<PortKey>, v: set<PortKey>): seq<EventKind> {
    Each(PortKind(v), walk.ports(if first then required else (v - was) + (was - v)))
  }

  function IntegrityDelta(component: string, was: Option<string>, current: string, detail: string): seq<EventKind> {
    if was.Some? && was.value != current then [EventKind.Integrity(component, false, Some(detail))] else []
  }

  // ---------------------------------------------------------------- one sensor at a time

  datatype Step = Step(state: PollState, events: seq<Emission>)

  /** A step taken after `events` were emitted. */
  function Onto(events: seq<Emission>, step: Step): Step {
    Step(step.state, events + step.events)
  }

  /** A failed probe is reported when the sensor enters the failed state, not while it stays there. */
  function Fail(st: PollState, sensor: Sensor, probes: Probes): Step {
    if sensor in st.failed then Step(st, [])
    else Step(st.(failed := st.failed + {sensor}),
              [Emission(sensor, EventKind.SensorFailure(Label(sensor), probes.error(sensor)))])
  }

  function Heal(st: PollState, sensor: Sensor): PollState {
    st.(failed := st.failed - {sensor})
  }

  function PollWifi(st: PollState, needs: Needs, probes: Probes, first: bool): Step {
    if !needs.wifi then Step(st, [])
    else match probes.wifi
         case None => Fail(st, WifiSensor, probes)
         case Some(v) => Step(Heal(st, WifiSensor).(wifi := Some(v)), Tagged(WifiSensor, WifiDelta(first, st.wifi, v)))
  }

  function PollNetwork(st: PollState, needs: Needs, probes: Probes, first: bool): Step {
    if !needs.network then Step(st, [])
    else match probes.network
         case None => Fail(st, NetworkSensor, probes)
         case Some(v) =>
           Step(Heal(st, NetworkSensor).(network := Some(v)), Tagged(NetworkSensor, NetworkDelta(first, st.network, v)))
  }

  function PollUsb(st: PollState, needs: Needs, probes: Probes, first: bool, walk: Walk): Step {
    if !needs.usb then Step(st, [])
    else match probes.usb
         case None => Fail(st, UsbSensor, probes)
         case Some(v) => Step(Heal(st, UsbSensor).(usb := v), Tagged(UsbSensor, UsbDelta(walk, first, st.usb, v)))
  }

  function PollMounts(st: PollState, needs: Needs, probes: Probes, first: bool, walk: Walk): Step {
    if !needs.mounts then Step(st, [])
    else match probes.mounts
         case None => Fail(st, MountSensor, probes)
         case Some(v) => Step(Heal(st, MountSensor).(mounts := v), Tagged(MountSensor, MountDelta(walk, first, st.mounts, v)))
  }

  function PollProcesses(st: PollState, needs: Needs, probes: Probes, first: bool, walk: Walk): Step {
    if needs.processes == {} then Step(st, [])
    else match probes.processes
         case None => Fail(st, ProcessSensor, probes)
         case Some(v) => Step(Heal(st, ProcessSensor).(processes := v),
                              Tagged(ProcessSensor, Each(ProcessKind(v), ChangedNames(walk, first, st.processes, v))))
  }

  function PollServices(st: PollState, needs: Needs, probes: Probes, first: bool, walk: Walk): Step {
    if needs.services == {} then Step(st, [])
    else match probes.services
         case None => Fail(st, ServiceSensor, probes)
         case Some(v) => Step(Heal(st, ServiceSensor).(services := v),
                              Tagged(ServiceSensor, Each(ServiceKind(v), ChangedNames(walk, first, st.services, v))))
  }

  function PollPorts(st: PollState, needs: Needs, probes: Probes, first: bool, walk: Walk): Step {
    if needs.ports == {} then Step(st, [])
    else match probes.ports
         case None => Fail(st, PortSensor, probes)
         case Some(v) => Step(Heal(st, PortSensor).(ports := v),
                              Tagged(PortSensor, PortDelta(walk, first, needs.ports, st.ports, v)))
  }

  function PollSession(st: PollState, needs: Needs, probes: Probes, first: bool): Step {
    if !needs.sessions then Step(st, [])
    else match probes.session
         case None => Fail(st, SessionSensor, probes)
         case Some(v) =>
           Step(Heal(st, SessionSensor).(session := Some(v)), Tagged(SessionSensor, SessionDelta(first, st.session, v)))
  }

  function PollPower(st: PollState, needs: Needs, probes: Probes, first: bool): Step {
    if !needs.power then Step(st, [])
    else match probes.power
         case None => Fail(st, PowerSensor, probes)
         case Some(v) => Step(Heal(st, PowerSensor).(power := Some(v)), Tagged(PowerSensor, PowerDelta(first, st.power, v)))
  }

  /** Integrity checks keep no failed state: an unreadable file is reported in every cycle. */
  function IntegrityKinds(component: string, was: Option<string>, current: Option<string>, probes: Probes): seq<EventKind> {
    match current
    case None => [EventKind.SensorFailure(Label(IntegritySensor), probes.error(IntegritySensor))]
    case Some(hash) => IntegrityDelta(component, was, hash, probes.detail(component))
  }

  function Later(was: Option<string>, current: Option<string>): Option<string> {
    if current.Some? then current else was
  }

  function PollIntegrity(st: PollState, needs: Needs, probes: Probes): Step {
    if !needs.integrity then Step(st, [])
    else Step(st.(configHash := Later(st.configHash, probes.configHash), binaryHash := Later(st.binaryHash, probes.binaryHash)),
              Tagged(IntegritySensor, IntegrityKinds("configuration", st.configHash, probes.configHash, probes) +
                                      IntegrityKinds("binary", st.binaryHash, probes.binaryHash, probes)))
  }

  function PollSensor(sensor: Sensor, st: PollState, needs: Needs, probes: Probes, first: bool, walk: Walk): Step {
    match sensor
    case WifiSensor => PollWifi(st, needs, probes, first)
    case NetworkSensor => PollNetwork(st, needs, probes, first)
    case UsbSensor => PollUsb(st, needs, probes, first, walk)
    case MountSensor => PollMounts(st, needs, probes, first, walk)
    case ProcessSensor => PollProcesses(st, needs, probes, first, walk)
    case ServiceSensor => PollServices(st, needs, probes, first, walk)
    case PortSensor => PollPorts(st, needs, probes, first, walk)
    case SessionSensor => PollSession(st, needs, probes, first)
    case PowerSensor => PollPower(st, needs, probes, first)
    case IntegritySensor => PollIntegrity(st, needs, probes)
  }

  /** The order in which a cycle visits its sensors. */
  const ORDER := [WifiSensor, NetworkSensor, UsbSensor, MountSensor, ProcessSensor, ServiceSensor, PortSensor,
                  SessionSensor, PowerSensor, IntegritySensor]

  function PollAll(sensors: seq<Sensor>, st: PollState, needs: Needs, probes: Probes, first: bool, walk: Walk): Step {
    if sensors == [] then Step(st, [])
    else
      var before := PollAll(sensors[..|sensors| - 1], st, needs, probes, first, walk);
      var last := PollSensor(sensors[|sensors| - 1], before.state, needs, probes, first, walk);
      Step(last.state, before.events + last.events)
  }

  function Cycle(st: PollState, needs: Needs, probes: Probes, walk: Walk): Step {
    var polled := PollAll(ORDER, st, needs, probes, !st.initialized, walk);
    Step(polled.state.(initialized := true), polled.events)
  }

  // ---------------------------------------------------------------- the polling task

  class Poller {
    var state: PollState
    var events: seq<Emission>

    constructor ()
      ensures state == UNPOLLED && events == []
    {
      state, events := UNPOLLED, [];
    }

    method Push(sensor: Sensor, kind: EventKind)
      modifies this`events
      ensures events == old(events) + Tagged(sensor, [kind])
    {
      events := events + [Emission(sensor, kind)];
    }

    method PushEach<T>(sensor: Sensor, f: T -> EventKind, items: seq<T>)
      modifies this`events
      ensures events == old(events) + Tagged(sensor, Each(f, items))
    {
      for i := 0 to |items|
        invariant events == old(events) + Tagged(sensor, Each(f, items))[..i]
      {
        events := events + [Emission(sensor, f(items[i]))];
      }
    }

    /** One loop over the names, pushing the changed ones. */
    method PushChanged(sensor: Sensor, f: string -> EventKind, walk: Walk, first: bool, was: map<string, bool>,
                       v: map<string, bool>)
      modifies this`events
      ensures events == old(events) + Tagged(sensor, Each(f, ChangedNames(walk, first, was, v)))
    {
      var names := walk.names(v.Keys);
      ghost var keep := (n: string) => HasChanged(first, was, v, n);
      for i := 0 to |names|
        invariant events == old(events) + Tagged(sensor, Each(f, Filter(keep, names[..i])))
      {
        assert names[..i + 1][..i] == names[..i];
        if first || names[i] !in was || was[names[i]] != On(v, names[i]) {
          events := events + [Emission(sensor, f(names[i]))];
        }
      }
      assert names[..|names|] == names;
    }

    /** One loop over the mounts of a table, pushing those the other table does not have. */
    method PushMissing(action: DeviceAction, walk: Walk, table: MountTable, other: MountTable)
      modifies this`events
      ensures events == old(events) + Tagged(MountSensor, Each(MountKind(action, table), Missing(walk, table, other)))
    {
      var paths := walk.paths(table.Keys);
      ghost var keep := (p: Path) => p !in other;
      for i := 0 to |paths|
        invariant events == old(events) + Tagged(MountSensor, Each(MountKind(action, table), Filter(keep, paths[..i])))
      {
        assert paths[..i + 1][..i] == paths[..i];
        if paths[i] !in other {
          var origin := if paths[i] in table then table[paths[i]] else None;
          events := events + [Emission(MountSensor, EventKind.Mount(action, paths[i], origin))];
        }
      }
      assert paths[..|paths|] == paths;
    }

    /** The outcome of a probe: success clears the sensor's failed mark, failure sets it and reports the transition. */
    method ProbeValue(sensor: Sensor, ok: bool, probes: Probes)
      modifies this
      ensures Step(state, events) ==
              if ok then Step(Heal(old(state), sensor), old(events)) else Onto(old(events), Fail(old(state), sensor, probes))
    {
      if ok {
        state := state.(failed := state.failed - {sensor});
      } else if sensor !in state.failed {
        state := state.(failed := state.failed + {sensor});
        events := events + [Emission(sensor, EventKind.SensorFailure(Label(sensor), probes.error(sensor)))];
      }
    }

    method TakeWifi(needs: Needs, probes: Probes, first: bool)
      modifies this
      ensures Step(state, events) == Onto(old(events), PollWifi(old(state), needs, probes, first))
    {
      if needs.wifi {
        ProbeValue(WifiSensor, probes.wifi.Some?, probes);
        if probes.wifi.Some? {
          var value := probes.wifi.value;
          if first || state.wifi != Some(value) {
            Push(WifiSensor, EventKind.Wifi(value.connected, value.ssid, value.bssid));
          }
          state := state.(wifi := Some(value));
        }
      }
    }

    method TakeNetwork(needs: Needs, probes: Probes, first: bool)
      modifies this
      ensures Step(state, events) == Onto(old(events), PollNetwork(old(state), needs, probes, first))
    {
      if needs.network {
        ProbeValue(NetworkSensor, probes.network.Some?, probes);
        if probes.network.Some? {
          var value := probes.network.value;
          if first || state.network != Some(value) {
            Push(NetworkSensor, EventKind.Network(value.online, value.iface, value.vpn));
          }
          state := state.(network := Some(value));
        }
      }
    }

    method TakeUsb(needs: Needs, probes: Probes, first: bool, walk: Walk)
      modifies this
      ensures Step(state, events) == Onto(old(events), PollUsb(old(state), needs, probes, first, walk))
    {
      if needs.usb {
        ProbeValue(UsbSensor, probes.usb.Some?, probes);
        if probes.usb.Some? {
          var value := probes.usb.value;
          if first {
            PushEach(UsbSensor, UsbKind(Added), walk.devices(value));
          } else {
            PushEach(UsbSensor, UsbKind(Added), walk.devices(value - state.usb));
            PushEach(UsbSensor, UsbKind(Removed), walk.devices(state.usb - value));
          }
          state := state.(usb := value);
        }
      }
    }

    method TakeMounts(needs: Needs, probes: Probes, first: bool, walk: Walk)
      modifies this
      ensures Step(state, events) == Onto(old(events), PollMounts(old(state), needs, probes, first, walk))
    {
      if needs.mounts {
        ProbeValue(MountSensor, probes.mounts.Some?, probes);
        if probes.mounts.Some? {
          var value := probes.mounts.value;
          if first {
            PushEach(MountSensor, MountKind(Added, value), walk.paths(value.Keys));
          } else {
            PushMissing(Added, walk, value, state.mounts);
            PushMissing(Removed, walk, state.mounts, value);
          }
          state := state.(mounts := value);
        }
      }
    }

    method TakeProcesses(needs: Needs, probes: Probes, first: bool, walk: Walk)
      modifies this
      ensures Step(state, events) == Onto(old(events), PollProcesses(old(state), needs, probes, first, walk))
    {
      if needs.processes != {} {
        ProbeValue(ProcessSensor, probes.processes.Some?, probes);
        if probes.processes.Some? {
          var value := probes.processes.value;
          PushChanged(ProcessSensor, ProcessKind(value), walk, first, state.processes, value);
          state := state.(processes := value);
        }
      }
    }

    method TakeServices(needs: Needs, probes: Probes, first: bool, walk: Walk)
      modifies this
      ensures Step(state, events) == Onto(old(events), PollServices(old(state), needs, probes, first, walk))
    {
      if needs.services != {} {
        ProbeValue(ServiceSensor, probes.services.Some?, probes);
        if probes.services.Some? {
          var value := probes.services.value;
          PushChanged(ServiceSensor, ServiceKind(value), walk, first, state.services, value);
          state := state.(services := value);
        }
      }
    }

    method TakePorts(needs: Needs, probes: Probes, first: bool, walk: Walk)
      modifies this
      ensures Step(state, events) == Onto(old(events), PollPorts(old(state), needs, probes, first, walk))
    {
      if needs.ports != {} {
        ProbeValue(PortSensor, probes.ports.Some?, probes);
        if probes.ports.Some? {
          var value := probes.ports.value;
          if first {
            PushEach(PortSensor, PortKind(value), walk.ports(needs.ports));
          } else {
            PushEach(PortSensor, PortKind(value), walk.ports((value - state.ports) + (state.ports - value)));
          }
          state := state.(ports := value);
        }
      }
    }

    method TakeSession(needs: Needs, probes: Probes, first: bool)
      modifies this
      ensures Step(state, events) == Onto(old(events), PollSession(old(state), needs, probes, first))
    {
      if needs.sessions {
        ProbeValue(SessionSensor, probes.session.Some?, probes);
        if probes.session.Some? {
          var value := probes.session.value;
          if first || state.session != Some(value) {
            if value.state != LoggedOut && (first || (state.session.Some? && state.session.value.state == LoggedOut)) {
              Push(SessionSensor, EventKind.Session(LoggedIn, value.user, value.remote));
            }
            Push(SessionSensor, EventKind.Session(value.state, value.user, value.remote));
          }
          state := state.(session := Some(value));
        }
      }
    }

    method TakePower(needs: Needs, probes: Probes, first: bool)
      modifies this
      ensures Step(state, events) == Onto(old(events), PollPower(old(state), needs, probes, first))
    {
      if needs.power {
        ProbeValue(PowerSensor, probes.power.Some?, probes);
        if probes.power.Some? {
          var value := probes.power.value;
          if first || state.power != Some(value) {
            Push(PowerSensor, EventKind.Power(value.onAc, value.batteryPercent, value.lidClosed));
          }
          state := state.(power := Some(value));
        }
      }
    }

    /** One file of the two: unreadable, seen for the first time, unchanged or changed. */
    method CheckIntegrity(component: string, slot: Option<string>, current: Option<string>, probes: Probes) returns (next: Option<string>)
      modifies this`events
      ensures next == Later(slot, current)
      ensures events == old(events) + Tagged(IntegritySensor, IntegrityKinds(component, slot, current, probes))
    {
      next := slot;
      match current {
        case Some(hash) =>
          if slot.Some? && slot.value != hash {
            Push(IntegritySensor, EventKind.Integrity(component, false, Some(probes.detail(component))));
          }
          next := Some(hash);
        case None =>
          Push(IntegritySensor, EventKind.SensorFailure(Label(IntegritySensor), probes.error(IntegritySensor)));
      }
    }

    method TakeIntegrity(needs: Needs, probes: Probes)
      modifies this
      ensures Step(state, events) == Onto(old(events), PollIntegrity(old(state), needs, probes))
    {
      if needs.integrity {
        var configHash := CheckIntegrity("configuration", state.configHash, probes.configHash, probes);
        var binaryHash := CheckIntegrity("binary", state.binaryHash, probes.binaryHash, probes);
        state := state.(configHash := configHash, binaryHash := binaryHash);
      }
    }

    method PollOne(sensor: Sensor, needs: Needs, probes: Probes, first: bool, walk: Walk)
      modifies this
      ensures Step(state, events) == Onto(old(events), PollSensor(sensor, old(state), needs, probes, first, walk))
    {
      match sensor {
        case WifiSensor => TakeWifi(needs, probes, first);
        case NetworkSensor => TakeNetwork(needs, probes, first);
        case UsbSensor => TakeUsb(needs, probes, first, walk);
        case MountSensor => TakeMounts(needs, probes, first, walk);
        case ProcessSensor => TakeProcesses(needs, probes, first, walk);
        case ServiceSensor => TakeServices(needs, probes, first, walk);
        case PortSensor => TakePorts(needs, probes, first, walk);
        case SessionSensor => TakeSession(needs, probes, first);
        case PowerSensor => TakePower(needs, probes, first);
        case IntegritySensor => TakeIntegrity(needs, probes);
      }
    }

    method PollCycle(needs: Needs, probes: Probes, walk: Walk)
      requires events == []
      modifies this
      ensures Step(state, events) == Cycle(old(state), needs, probes, walk)
    {
      var first := !state.initialized;
      for i := 0 to |ORDER|
        invariant Step(state, events) == PollAll(ORDER[..i], old(state), needs, probes, first, walk)
      {
        assert ORDER[..i + 1][..i] == ORDER[..i];
        PollOne(ORDER[i], needs, probes, first, walk);
      }
      assert ORDER[..|ORDER|] == ORDER;
      state := state.(initialized := true);
    }
  }
}
