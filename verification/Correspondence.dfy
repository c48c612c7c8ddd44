/** Triggers, conditions, events and sensor names against each other: what a trigger asks of an event is what the condition
    of the same name asks of the snapshot the event leaves behind. */
module Correspondence {
  import opened Options
  import opened Config
  import opened Events
  import opened Matching
  import opened Keys
  import opened Validation
  import Requirements
  import opened Polling
  import opened PollingRuns

  // ---------------------------------------------------------------- what an event does to the snapshot at large

  /** Every event sets the clock and vouches for its source; only a failure or an integrity verdict says otherwise, of the
      sensor or component it names. Nothing but a request changes the mode. */
  lemma EventSetsHealth(s: Snapshot, event: Event, name: string)
    ensures var t := ApplyEvent(s, event);
            && t.now == event.timestamp && t.mode == s.mode
            && (name in t.sensorHealth && t.sensorHealth[name] <==>
                if event.kind.SensorFailure? && event.kind.sensor == name then false
                else if event.kind.Integrity? && event.kind.component == name then event.kind.valid
                else name == event.source || (name in s.sensorHealth && s.sensorHealth[name]))
  {
  }

  /** Before any event nothing is known, mounted, running or open. */
  lemma NothingKnownAtFirst(now: int, mode: string)
    ensures var s := DefaultSnapshot(now, mode);
            && s.now == now && s.mode == mode && |s.mounts| == 0 && |s.processes| == 0 && |s.services| == 0 && |s.ports| == 0
            && |s.sensorHealth| == 0 && !s.wifi.connected && s.wifi.ssid.None? && s.wifi.bssid.None?
            && !s.network.online && s.network.iface.None? && !s.network.vpn
            && s.session.state.None? && s.session.user.None? && !s.session.remote
            && s.power.onAc.None? && s.power.batteryPercent.None? && s.power.lidClosed.None?
  {
  }

  // ---------------------------------------------------------------- triggers and conditions

  lemma TriggerConnectives(parts: seq<TriggerSpec>, kind: EventKind)
    ensures TriggerMatches(TriggerSpec.All(parts), kind) <==> forall i | 0 <= i < |parts| :: TriggerMatches(parts[i], kind)
    ensures TriggerMatches(TriggerSpec.Any(parts), kind) <==> exists i | 0 <= i < |parts| :: TriggerMatches(parts[i], kind)
  {
  }

  /** A sequence inside another trigger never matches. */
  lemma NotAndSequence(parts: seq<TriggerSpec>, part: TriggerSpec, within: nat, kind: EventKind)
    ensures TriggerMatches(TriggerSpec.Not(part), kind) <==> !TriggerMatches(part, kind)
    ensures !TriggerMatches(TriggerSpec.Sequence(parts, within), kind)
  {
  }

  lemma ConditionConnectives(parts: seq<ConditionSpec>, part: ConditionSpec, s: Snapshot, host: Host)
    ensures ConditionMatches(ConditionSpec.All(parts), s, host) <==> forall i | 0 <= i < |parts| :: ConditionMatches(parts[i], s, host)
    ensures ConditionMatches(ConditionSpec.Any(parts), s, host) <==> exists i | 0 <= i < |parts| :: ConditionMatches(parts[i], s, host)
    ensures ConditionMatches(ConditionSpec.Not(part), s, host) <==> !ConditionMatches(part, s, host)
  {
  }

  /** Equal up to the case of ASCII letters means equal in capitals. */
  lemma CaseExact(a: string, b: string)
    ensures EqIgnoreAsciiCase(a, b) <==> Upper(a) == Upper(b)
  {
    if Upper(a) == Upper(b) {
      forall i | 0 <= i < |a| ensures |a| == |b| && LowerAscii(a[i]) == LowerAscii(b[i]) {
        assert |Upper(a)| == |Upper(b)| && Upper(a)[i] == Upper(b)[i];
      }
      assert |Upper(a)| == |Upper(b)|;
    }
    if EqIgnoreAsciiCase(a, b) {
      forall i | 0 <= i < |a| ensures Upper(a)[i] == Upper(b)[i] {
        assert LowerAscii(a[i]) == LowerAscii(b[i]);
      }
    }
  }

  lemma WifiExact(s: Snapshot, event: Event, host: Host, ssid: Option<string>, bssid: Option<string>, connected: Option<bool>)
    requires event.kind.Wifi?
    ensures var asked := && (connected.Some? ==> event.kind.connected == connected.value)
                         && (ssid.Some? ==> event.kind.ssid == Some(ssid.value))
                         && (bssid.Some? ==> event.kind.bssid.Some? && Upper(event.kind.bssid.value) == Upper(bssid.value));
            && (TriggerMatches(TriggerSpec.WifiChanged(ssid, bssid, connected), event.kind) <==> asked)
            && (ConditionMatches(ConditionSpec.Wifi(ssid, bssid, connected), ApplyEvent(s, event), host) <==> asked)
  {
    if bssid.Some? && event.kind.bssid.Some? {
      CaseExact(event.kind.bssid.value, bssid.value);
    }
  }

  lemma NetworkExact(s: Snapshot, event: Event, host: Host, iface: Option<string>, online: Option<bool>, vpn: Option<bool>)
    requires event.kind.Network?
    ensures var asked := && (online.Some? ==> event.kind.online == online.value) && (vpn.Some? ==> event.kind.vpn == vpn.value)
                         && (iface.Some? ==> event.kind.iface == Some(iface.value));
            && (TriggerMatches(TriggerSpec.NetworkChanged(iface, online, vpn), event.kind) <==> asked)
            && (ConditionMatches(ConditionSpec.Network(online, iface, vpn), ApplyEvent(s, event), host) <==> asked)
  {
  }

  lemma SessionExact(s: Snapshot, event: Event, host: Host, state: Option<SessionState>, user: Option<string>, remote: Option<bool>)
    requires event.kind.Session?
    ensures var asked := && (state.Some? ==> event.kind.state == state.value) && (remote.Some? ==> event.kind.remote == remote.value)
                         && (user.Some? ==> event.kind.user == Some(user.value));
            && (TriggerMatches(TriggerSpec.Session(state, user, remote), event.kind) <==> asked)
            && (ConditionMatches(ConditionSpec.Session(state, user, remote), ApplyEvent(s, event), host) <==> asked)
  {
  }

  /** A battery limit asks for a known charge strictly below it. */
  lemma PowerExact(s: Snapshot, event: Event, host: Host, onAc: Option<bool>, below: Option<u8>, lid: Option<bool>)
    requires event.kind.Power?
    ensures var asked := && (onAc.Some? ==> event.kind.onAc == Some(onAc.value)) && (lid.Some? ==> event.kind.lidClosed == Some(lid.value))
                         && (below.Some? ==> event.kind.batteryPercent.Some? && event.kind.batteryPercent.value < below.value);
            && (TriggerMatches(TriggerSpec.Power(onAc, below, lid), event.kind) <==> asked)
            && (ConditionMatches(ConditionSpec.Power(onAc, below, lid), ApplyEvent(s, event), host) <==> asked)
  {
  }

  lemma ProcessExact(s: Snapshot, event: Event, host: Host, name: string, running: bool)
    requires event.kind.Process?
    ensures var asked := event.kind.name == name && event.kind.running == running;
            && (TriggerMatches(TriggerSpec.Process(Some(name), Some(running)), event.kind) <==> asked)
            && (event.kind.name == name ==>
                (ConditionMatches(ConditionSpec.Process(name, running), ApplyEvent(s, event), host) <==> asked))
    ensures TriggerMatches(TriggerSpec.Process(None, Some(running)), event.kind) <==> event.kind.running == running
    ensures TriggerMatches(TriggerSpec.Process(Some(name), None), event.kind) <==> event.kind.name == name
    ensures TriggerMatches(TriggerSpec.Process(None, None), event.kind)
  {
  }

  lemma ServiceExact(s: Snapshot, event: Event, host: Host, name: string, active: bool)
    requires event.kind.Service?
    ensures var asked := event.kind.name == name && event.kind.active == active;
            && (TriggerMatches(TriggerSpec.Service(Some(name), Some(active)), event.kind) <==> asked)
            && (event.kind.name == name ==>
                (ConditionMatches(ConditionSpec.Service(name, active), ApplyEvent(s, event), host) <==> asked))
    ensures TriggerMatches(TriggerSpec.Service(None, Some(active)), event.kind) <==> event.kind.active == active
    ensures TriggerMatches(TriggerSpec.Service(Some(name), None), event.kind) <==> event.kind.name == name
    ensures TriggerMatches(TriggerSpec.Service(None, None), event.kind)
  {
  }

  lemma PortExact(s: Snapshot, event: Event, host: Host, port: Option<u16>, open: Option<bool>, protocol: Option<NetworkProtocol>)
    requires event.kind.Port?
    ensures TriggerMatches(TriggerSpec.Port(port, open, protocol), event.kind) <==>
            && (port.Some? ==> event.kind.port == port.value) && (open.Some? ==> event.kind.open == open.value)
            && (protocol.Some? ==> event.kind.protocol == protocol.value)
    ensures port == Some(event.kind.port) && protocol == Some(event.kind.protocol) && open.Some? ==>
            (ConditionMatches(ConditionSpec.Port(event.kind.port, open.value, event.kind.protocol), ApplyEvent(s, event), host) <==>
             event.kind.open == open.value)
  {
  }

  /** Any mount event but a removal leaves the path mounted. */
  lemma MountExact(s: Snapshot, event: Event, host: Host, device: Option<DeviceAction>, path: Option<Path>, mounted: bool)
    requires event.kind.Mount?
    ensures TriggerMatches(TriggerSpec.Mount(device, path), event.kind) <==>
            (device.Some? ==> event.kind.device == device.value) && (path.Some? ==> event.kind.path == path.value)
    ensures ConditionMatches(ConditionSpec.Mounted(event.kind.path, mounted), ApplyEvent(s, event), host) <==>
            mounted == (event.kind.device != Removed)
  {
  }

  /** A file trigger matches its own path, or with the recursive flag everything below it too, and the operations it lists,
      or any if it lists none. */
  lemma FileExact(path: Path, operations: seq<FileOperation>, recursive: bool, actual: Path, operation: FileOperation)
    ensures TriggerMatches(TriggerSpec.File(path, operations, recursive), EventKind.File(actual, operation)) <==>
            && (actual == path ||
                (recursive && actual.absolute == path.absolute && exists rest :: actual.components == path.components + rest))
            && (|operations| > 0 ==> operation in operations)
  {
    if path.components <= actual.components {
      assert actual.components == path.components + actual.components[|path.components|..];
    }
    if actual == path {
      assert actual.components == path.components + [];
    }
  }

  lemma UsbExact(device: Option<DeviceAction>, vendor: Option<string>, product: Option<string>, serial: Option<string>, kind: EventKind)
    requires kind.Usb?
    ensures TriggerMatches(TriggerSpec.Usb(device, vendor, product, serial), kind) <==>
            && (device.Some? ==> kind.device == device.value) && (serial.Some? ==> kind.serial == Some(serial.value))
            && (vendor.Some? ==> kind.vendorId.Some? && Upper(kind.vendorId.value) == Upper(vendor.value))
            && (product.Some? ==> kind.productId.Some? && Upper(kind.productId.value) == Upper(product.value))
  {
    if vendor.Some? && kind.vendorId.Some? {
      CaseExact(kind.vendorId.value, vendor.value);
    }
    if product.Some? && kind.productId.Some? {
      CaseExact(kind.productId.value, product.value);
    }
  }

  lemma NamedExact(name: string, kind: EventKind)
    ensures TriggerMatches(TriggerSpec.Tick, kind) <==> kind == EventKind.Tick
    ensures TriggerMatches(TriggerSpec.Hotkey(name), kind) <==> kind == EventKind.Hotkey(name)
    ensures TriggerMatches(TriggerSpec.Manual(name), kind) <==> kind == EventKind.Manual(name)
  {
  }

  lemma FailuresExact(named: Option<string>, kind: EventKind)
    ensures TriggerMatches(TriggerSpec.IntegrityFailure(named), kind) <==>
            kind.Integrity? && !kind.valid && (named.Some? ==> kind.component == named.value)
    ensures TriggerMatches(TriggerSpec.SensorFailure(named), kind) <==>
            kind.SensorFailure? && (named.Some? ==> kind.sensor == named.value)
  {
  }

  /** A health condition asks whether the last word on a sensor was good; a path condition asks the file system, a mode
      condition the mode. */
  lemma HealthAndModeExact(s: Snapshot, host: Host, sensor: string, healthy: bool, mode: string, path: Path, present: bool)
    ensures ConditionMatches(ConditionSpec.SensorHealthy(sensor, true), s, host) <==> (sensor, true) in s.sensorHealth.Items
    ensures ConditionMatches(ConditionSpec.SensorHealthy(sensor, healthy), s, host) <==>
            healthy == ConditionMatches(ConditionSpec.SensorHealthy(sensor, true), s, host)
    ensures ConditionMatches(ConditionSpec.Mode(mode), s, host) <==> s.mode == mode
    ensures ConditionMatches(ConditionSpec.PathExists(path, present), s, host) <==> present == host.pathExists(path)
  {
  }

  // ---------------------------------------------------------------- time windows

  /** Nanoseconds in a day. */
  const DAY := 86_400_000_000_000

  type ClockTime = t: int | 0 <= t < DAY

  /** How long after `from` the clock next shows `time`. */
  function Ahead(from: ClockTime, time: ClockTime): nat {
    (time - from) % DAY
  }

  /** A window holds, on the weekdays it lists or on all, when the local time comes no later after its start than its end
      does, going round the clock; so a window that starts later than it ends spans midnight. The flag `outside` asks for the
      opposite, on the same weekdays. */
  lemma TimeWindowExact(s: Snapshot, host: Host, start: string, end: string, outside: bool, weekdays: seq<Weekday>,
                        from: ClockTime, to: ClockTime, now: ClockTime)
    requires host.parseTime(start) == Some(from) && host.parseTime(end) == Some(to) && host.localTime(s.now).nanosOfDay == now
    ensures ConditionMatches(ConditionSpec.TimeWindow(start, end, outside, weekdays), s, host) <==>
            && (|weekdays| == 0 || host.localTime(s.now).weekday in weekdays)
            && (outside <==> Ahead(from, now) > Ahead(from, to))
  {
  }

  /** A window whose times cannot be read never holds. */
  lemma UnreadableWindow(s: Snapshot, host: Host, start: string, end: string, outside: bool, weekdays: seq<Weekday>)
    requires host.parseTime(start).None? || host.parseTime(end).None?
    ensures !ConditionMatches(ConditionSpec.TimeWindow(start, end, outside, weekdays), s, host)
  {
  }

  // ---------------------------------------------------------------- sensor names

  /** The source under which each kind of event is published; failures and integrity verdicts aside, it tells the kind. */
  function PublishedAs(kind: EventKind): string
    requires !kind.SensorFailure?
  {
    match kind
    case Tick => "time"
    case File(_, _) => "filesystem"
    case Wifi(_, _, _) => "wifi"
    case Network(_, _, _) => "network"
    case Usb(_, _, _, _) => "usb"
    case Mount(_, _, _) => "mounts"
    case Process(_, _) => "processes"
    case Service(_, _) => "services"
    case Port(_, _, _) => "ports"
    case Session(_, _, _) => "sessions"
    case Power(_, _, _) => "power"
    case Hotkey(_) => "hotkeys"
    case Integrity(_, _, _) => "integrity"
    case Manual(_) => "manual"
  }

  /** An event published under the name, where there is one. */
  function ExampleOf(name: string): Option<EventKind> {
    if name == "time" then Some(EventKind.Tick)
    else if name == "filesystem" then Some(EventKind.File(Path(true, []), FileOperation.Other))
    else if name == "wifi" then Some(EventKind.Wifi(false, None, None))
    else if name == "network" then Some(EventKind.Network(false, None, false))
    else if name == "usb" then Some(EventKind.Usb(Added, None, None, None))
    else if name == "mounts" then Some(EventKind.Mount(Added, Path(true, []), None))
    else if name == "processes" then Some(EventKind.Process("", false))
    else if name == "services" then Some(EventKind.Service("", false))
    else if name == "ports" then Some(EventKind.Port(0, Tcp, false))
    else if name == "sessions" then Some(EventKind.Session(LoggedIn, None, false))
    else if name == "power" then Some(EventKind.Power(None, None, None))
    else if name == "hotkeys" then Some(EventKind.Hotkey(""))
    else if name == "integrity" then Some(EventKind.Integrity("", false, None))
    else if name == "manual" then Some(EventKind.Manual(""))
    else None
  }

  /** Health conditions may name exactly the sources of events, the two components whose integrity is checked, and the
      polling task. */
  lemma KnownSensorsExact(name: string)
    ensures KnownSensor(name) <==>
            || (exists kind: EventKind :: !kind.SensorFailure? && PublishedAs(kind) == name)
            || name == "configuration" || name == "binary" || name == "polling"
  {
    if ExampleOf(name).Some? {
      var kind := ExampleOf(name).value;
      assert !kind.SensorFailure? && PublishedAs(kind) == name;
    }
  }

  predicate Leaf(trigger: TriggerSpec) {
    !trigger.All? && !trigger.Any? && !trigger.Not? && !trigger.Sequence?
  }

  /** A leaf uses exactly the sensor whose events it can match: the one whose failure its rule must answer. */
  lemma LeafUsesItsSource(trigger: TriggerSpec, kind: EventKind, sensor: string)
    requires Leaf(trigger) && !kind.SensorFailure? && TriggerMatches(trigger, kind)
    ensures TriggerUsesSensor(trigger, sensor) <==> sensor == PublishedAs(kind)
  {
  }

  /** A composite uses the sensors of its parts and no others. */
  lemma CompositeUses(parts: seq<TriggerSpec>, sensor: string)
    ensures TriggerUsesSensor(TriggerSpec.All(parts), sensor) <==> exists i | 0 <= i < |parts| :: TriggerUsesSensor(parts[i], sensor)
    ensures TriggerUsesSensor(TriggerSpec.Any(parts), sensor) <==> exists i | 0 <= i < |parts| :: TriggerUsesSensor(parts[i], sensor)
  {
  }

  lemma SequenceUses(parts: seq<TriggerSpec>, part: TriggerSpec, within: nat, sensor: string)
    ensures TriggerUsesSensor(TriggerSpec.Not(part), sensor) <==> TriggerUsesSensor(part, sensor)
    ensures TriggerUsesSensor(TriggerSpec.Sequence(parts, within), sensor) <==>
            exists i | 0 <= i < |parts| :: TriggerUsesSensor(parts[i], sensor)
  {
  }

  /** An event that is a failure report or bears its sensor's name. */
  predicate WellPublished(e: Emission) {
    e.kind.SensorFailure? || PublishedAs(e.kind) == Label(e.sensor)
  }

  lemma StepPublishes(sensor: Sensor, st: PollState, needs: Requirements.Needs, probes: Probes, first: bool, walk: Walk)
    ensures forall e | e in PollSensor(sensor, st, needs, probes, first, walk).events :: WellPublished(e)
  {
    if sensor.IntegritySensor? {
      IntegrityPublishes(st, needs, probes);
    } else if !Attempted(sensor, needs) {
      IdleStep(sensor, st, needs, probes, first, walk);
    } else if !ProbeOk(sensor, probes) {
      FailureStep(sensor, st, needs, probes, first, walk);
    } else if Collects(sensor) {
      CollectionPublishes(sensor, st, needs, probes, first, walk);
    } else {
      ScalarPublishes(sensor, st, needs, probes, first, walk);
    }
  }

  lemma IntegrityPublishes(st: PollState, needs: Requirements.Needs, probes: Probes)
    ensures forall e | e in PollIntegrity(st, needs, probes).events :: WellPublished(e)
  {
  }

  lemma CollectionPublishes(sensor: Sensor, st: PollState, needs: Requirements.Needs, probes: Probes, first: bool, walk: Walk)
    requires Attempted(sensor, needs) && ProbeOk(sensor, probes) && Collects(sensor)
    ensures forall e | e in PollSensor(sensor, st, needs, probes, first, walk).events :: WellPublished(e)
  {
  }

  lemma ScalarPublishes(sensor: Sensor, st: PollState, needs: Requirements.Needs, probes: Probes, first: bool, walk: Walk)
    requires Attempted(sensor, needs) && ProbeOk(sensor, probes) && !Collects(sensor) && !sensor.IntegritySensor?
    ensures forall e | e in PollSensor(sensor, st, needs, probes, first, walk).events :: WellPublished(e)
  {
  }

  /** The polling sensors publish each kind of event under the name that triggers know it by. */
  lemma {:induction false} PollingPublishes(sensors: seq<Sensor>, st: PollState, needs: Requirements.Needs, probes: Probes, first: bool, walk: Walk)
    ensures forall e | e in PollAll(sensors, st, needs, probes, first, walk).events :: WellPublished(e)
  {
    if sensors != [] {
      var front, last := sensors[..|sensors| - 1], sensors[|sensors| - 1];
      PollingPublishes(front, st, needs, probes, first, walk);
      StepPublishes(last, PollAll(front, st, needs, probes, first, walk).state, needs, probes, first, walk);
    }
  }
}
