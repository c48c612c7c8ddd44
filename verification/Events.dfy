/** Normalized events and the latest-known host state they build up. */
module Events {
  import opened Options
  import opened Config

  datatype EventKind =
    | Tick
    | File(path: Path, operation: FileOperation)
    | Wifi(connected: bool, ssid: Option<string>, bssid: Option<string>)
    | Network(online: bool, iface: Option<string>, vpn: bool)
    | Usb(device: DeviceAction, vendorId: Option<string>, productId: Option<string>, serial: Option<string>)
    | Mount(device: DeviceAction, path: Path, mountSource: Option<string>)
    | Process(name: string, running: bool)
    | Service(name: string, active: bool)
    | Port(port: u16, protocol: NetworkProtocol, open: bool)
    | Session(state: SessionState, user: Option<string>, remote: bool)
    | Power(onAc: Option<bool>, batteryPercent: Option<u8>, lidClosed: Option<bool>)
    | Hotkey(hotkey: string)
    | Integrity(component: string, valid: bool, detail: Option<string>)
    | Manual(manual: string)
    | SensorFailure(sensor: string, message: string)

  /** Timestamps are nanoseconds on one time line; nothing makes them increase. */
  datatype Event = Event(id: string, timestamp: int, source: string, kind: EventKind)

  type PortKey = (NetworkProtocol, u16)

  datatype WifiState = WifiState(connected: bool, ssid: Option<string>, bssid: Option<string>)
  datatype NetworkState = NetworkState(online: bool, iface: Option<string>, vpn: bool)
  datatype SessionView = SessionView(state: Option<SessionState>, user: Option<string>, remote: bool)
  datatype PowerState = PowerState(onAc: Option<bool>, batteryPercent: Option<u8>, lidClosed: Option<bool>)

  /** The fields one sensor reports together are kept together. */
  datatype Snapshot = Snapshot(
    now: int, wifi: WifiState, network: NetworkState, mounts: set<Path>, processes: set<string>,
    services: map<string, bool>, ports: set<PortKey>, session: SessionView, power: PowerState,
    mode: string, sensorHealth: map<string, bool>)

  const NO_WIFI := WifiState(false, None, None)
  const NO_NETWORK := NetworkState(false, None, false)
  const NO_SESSION := SessionView(None, None, false)
  const NO_POWER := PowerState(None, None, None)

  function DefaultSnapshot(now: int, mode: string): Snapshot {
    Snapshot(now, NO_WIFI, NO_NETWORK, {}, {}, map[], {}, NO_SESSION, NO_POWER, mode, map[])
  }

  /** The state change one event stands for: any event vouches for its source, then its payload counts. */
  function ApplyEvent(s: Snapshot, event: Event): Snapshot {
    ApplyKind(s.(now := event.timestamp, sensorHealth := s.sensorHealth[event.source := true]), event.kind)
  }

  function ApplyKind(t: Snapshot, kind: EventKind): Snapshot {
    match kind
    case Wifi(connected, ssid, bssid) => t.(wifi := WifiState(connected, ssid, bssid))
    case Network(online, iface, vpn) => t.(network := NetworkState(online, iface, vpn))
    case Mount(device, path, _) => t.(mounts := if device.Removed? then t.mounts - {path} else t.mounts + {path})
    case Process(name, running) =>
      t.(processes := if running then t.processes + {name} else t.processes - {name})
    case Service(name, active) => t.(services := t.services[name := active])
    case Port(port, protocol, open) =>
      t.(ports := if open then t.ports + {(protocol, port)} else t.ports - {(protocol, port)})
    case Session(state, user, remote) => t.(session := SessionView(Some(state), user, remote))
    case Power(onAc, battery, lid) => t.(power := PowerState(onAc, battery, lid))
    case Integrity(component, valid, _) => t.(sensorHealth := t.sensorHealth[component := valid])
    case SensorFailure(sensor, _) => t.(sensorHealth := t.sensorHealth[sensor := false])
    case _ => t
  }

  function Replay(s: Snapshot, events: seq<Event>): Snapshot {
    if events == [] then s else ApplyEvent(Replay(s, events[..|events| - 1]), events[|events| - 1])
  }

  /** The mutable snapshot the engine owns; `Apply` updates it field by field. */
  class SystemSnapshot {
    var now: int
    var wifi: WifiState
    var network: NetworkState
    var mounts: set<Path>
    var processes: set<string>
    var services: map<string, bool>
    var ports: set<PortKey>
    var session: SessionView
    var power: PowerState
    var mode: string
    var sensorHealth: map<string, bool>

    constructor (now: int, mode: string)
      ensures View() == DefaultSnapshot(now, mode)
    {
      this.now, this.mode := now, mode;
      wifi, network, session, power := NO_WIFI, NO_NETWORK, NO_SESSION, NO_POWER;
      mounts, processes, services, ports, sensorHealth := {}, {}, map[], {}, map[];
    }

    function View(): Snapshot
      reads this
    {
      Snapshot(now, wifi, network, mounts, processes, services, ports, session, power, mode, sensorHealth)
    }

    method Apply(event: Event)
      modifies this
      ensures View() == ApplyEvent(old(View()), event)
    {
      now := event.timestamp;
      sensorHealth := sensorHealth[event.source := true];
      Absorb(event.kind);
    }

    method Absorb(kind: EventKind)
      modifies this
      ensures View() == ApplyKind(old(View()), kind)
    {
      match kind {
        case Wifi(connected, ssid, bssid) =>
          wifi := WifiState(connected, ssid, bssid);
        case Network(online, iface, vpn) =>
          network := NetworkState(online, iface, vpn);
        case Mount(device, path, _) =>
          if device.Removed? {
            mounts := mounts - {path};
          } else {
            mounts := mounts + {path};
          }
        case Process(name, running) =>
          if running {
            processes := processes + {name};
          } else {
            processes := processes - {name};
          }
        case Service(name, active) =>
          services := services[name := active];
        case Port(port, protocol, open) =>
          if open {
            ports := ports + {(protocol, port)};
          } else {
            ports := ports - {(protocol, port)};
          }
        case Session(state, user, remote) =>
          session := SessionView(Some(state), user, remote);
        case Power(ac, battery, lid) =>
          power := PowerState(ac, battery, lid);
        case Integrity(component, valid, _) =>
          sensorHealth := sensorHealth[component := valid];
        case SensorFailure(sensor, _) =>
          sensorHealth := sensorHealth[sensor := false];
        case _ =>
      }
    }
  }
}
