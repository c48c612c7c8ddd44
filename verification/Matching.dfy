/** Pure evaluation of triggers against events and of conditions against snapshots. */
module Matching {
  import opened Options
  import opened Config
  import opened Events

  datatype LocalTime = LocalTime(nanosOfDay: nat, weekday: Weekday)

  /** What evaluation asks of the machine: file existence, clock-text parsing and the local time zone. */
  datatype Host = Host(pathExists: Path -> bool, parseTime: string -> Option<nat>, localTime: int -> LocalTime)

  function LowerAscii(c: char): char {
    if 'A' <= c <= 'Z' then c - 'A' + 'a' else c
  }

  predicate EqIgnoreAsciiCase(a: string, b: string) {
    |a| == |b| && forall i | 0 <= i < |a| :: LowerAscii(a[i]) == LowerAscii(b[i])
  }

  predicate AcceptsIgnoringCase(expected: Option<string>, actual: Option<string>) {
    expected.None? || (actual.Some? && EqIgnoreAsciiCase(actual.value, expected.value))
  }

  predicate BatteryBelow(limit: Option<u8>, actual: Option<u8>) {
    limit.None? || (actual.Some? && actual.value < limit.value)
  }

  predicate PathMatches(configured: Path, actual: Path, recursive: bool) {
    if recursive then actual.StartsWith(configured) else actual == configured
  }

  predicate TriggerMatches(trigger: TriggerSpec, kind: EventKind) {
    match trigger
    case Tick => kind.Tick?
    case File(path, operations, recursive) =>
      kind.File? && PathMatches(path, kind.path, recursive) && (operations == [] || kind.operation in operations)
    case WifiChanged(ssid, bssid, connected) =>
      kind.Wifi? && Accepts(connected, kind.connected) && AcceptsSome(ssid, kind.ssid) &&
      AcceptsIgnoringCase(bssid, kind.bssid)
    case NetworkChanged(iface, online, vpn) =>
      kind.Network? && Accepts(online, kind.online) && Accepts(vpn, kind.vpn) && AcceptsSome(iface, kind.iface)
    case Usb(device, vendorId, productId, serial) =>
      kind.Usb? && Accepts(device, kind.device) && AcceptsIgnoringCase(vendorId, kind.vendorId) &&
      AcceptsIgnoringCase(productId, kind.productId) && AcceptsSome(serial, kind.serial)
    case Mount(device, path) => kind.Mount? && Accepts(device, kind.device) && Accepts(path, kind.path)
    case Process(name, running) => kind.Process? && Accepts(running, kind.running) && Accepts(name, kind.name)
    case Service(name, active) => kind.Service? && Accepts(active, kind.active) && Accepts(name, kind.name)
    case Port(port, open, protocol) =>
      kind.Port? && Accepts(port, kind.port) && Accepts(open, kind.open) && Accepts(protocol, kind.protocol)
    case Session(state, user, remote) =>
      kind.Session? && Accepts(state, kind.state) && Accepts(remote, kind.remote) && AcceptsSome(user, kind.user)
    case Power(onAc, batteryBelow, lidClosed) =>
      kind.Power? && AcceptsSome(onAc, kind.onAc) && AcceptsSome(lidClosed, kind.lidClosed) &&
      BatteryBelow(batteryBelow, kind.batteryPercent)
    case Hotkey(name) => kind.Hotkey? && name == kind.hotkey
    case IntegrityFailure(component) => kind.Integrity? && !kind.valid && Accepts(component, kind.component)
    case Manual(name) => kind.Manual? && name == kind.manual
    case SensorFailure(sensor) => kind.SensorFailure? && Accepts(sensor, kind.sensor)
    case All(triggers) => forall t | t in triggers :: TriggerMatches(t, kind)
    case Any(triggers) => exists t | t in triggers :: TriggerMatches(t, kind)
    case Not(inner) => !TriggerMatches(inner, kind)
    case Sequence(_, _) => false
  }

  predicate ConditionMatches(condition: ConditionSpec, s: Snapshot, host: Host) {
    match condition
    case All(conditions) => forall c | c in conditions :: ConditionMatches(c, s, host)
    case Any(conditions) => exists c | c in conditions :: ConditionMatches(c, s, host)
    case Not(inner) => !ConditionMatches(inner, s, host)
    case TimeWindow(start, end, outside, weekdays) =>
      var from, to := host.parseTime(start), host.parseTime(end);
      from.Some? && to.Some? &&
      var local := host.localTime(s.now);
      var now := local.nanosOfDay;
      var inside := if from.value <= to.value then from.value <= now <= to.value
                    else from.value <= now || now <= to.value;
      (weekdays == [] || local.weekday in weekdays) && inside != outside
    case Wifi(ssid, bssid, connected) =>
      Accepts(connected, s.wifi.connected) && AcceptsSome(ssid, s.wifi.ssid) && AcceptsIgnoringCase(bssid, s.wifi.bssid)
    case Network(online, iface, vpn) =>
      Accepts(online, s.network.online) && Accepts(vpn, s.network.vpn) && AcceptsSome(iface, s.network.iface)
    case Mode(name) => name == s.mode
    case PathExists(path, present) => host.pathExists(path) == present
    case Mounted(path, mounted) => (path in s.mounts) == mounted
    case Process(name, running) => (name in s.processes) == running
    case Service(name, active) => (name in s.services && s.services[name]) == active
    case Port(port, open, protocol) => ((protocol, port) in s.ports) == open
    case Session(state, user, remote) =>
      AcceptsSome(state, s.session.state) && Accepts(remote, s.session.remote) && AcceptsSome(user, s.session.user)
    case Power(onAc, batteryBelow, lidClosed) =>
      AcceptsSome(onAc, s.power.onAc) && AcceptsSome(lidClosed, s.power.lidClosed) && BatteryBelow(batteryBelow, s.power.batteryPercent)
    case SensorHealthy(sensor, healthy) => (sensor in s.sensorHealth && s.sensorHealth[sensor]) == healthy
  }

  predicate TriggerUsesSensor(trigger: TriggerSpec, sensor: string) {
    match trigger
    case Tick => sensor == "time"
    case File(_, _, _) => sensor == "filesystem"
    case WifiChanged(_, _, _) => sensor == "wifi"
    case NetworkChanged(_, _, _) => sensor == "network"
    case Usb(_, _, _, _) => sensor == "usb"
    case Mount(_, _) => sensor == "mounts"
    case Process(_, _) => sensor == "processes"
    case Service(_, _) => sensor == "services"
    case Port(_, _, _) => sensor == "ports"
    case Session(_, _, _) => sensor == "sessions"
    case Power(_, _, _) => sensor == "power"
    case Hotkey(_) => sensor == "hotkeys"
    case IntegrityFailure(_) => sensor == "integrity"
    case Manual(_) => sensor == "manual"
    case SensorFailure(expected) => Accepts(expected, sensor)
    case All(triggers) => exists t | t in triggers :: TriggerUsesSensor(t, sensor)
    case Any(triggers) => exists t | t in triggers :: TriggerUsesSensor(t, sensor)
    case Not(inner) => TriggerUsesSensor(inner, sensor)
    case Sequence(steps, _) => exists t | t in steps :: TriggerUsesSensor(t, sensor)
  }

  // ---------------------------------------------------------------- sensor failures against triggers

  /** The truth value of a trigger when none of its leaves match: a matter of its shape alone. */
  predicate HoldsVacuously(trigger: TriggerSpec) {
    match trigger
    case All(triggers) => forall t | t in triggers :: HoldsVacuously(t)
    case Any(triggers) => exists t | t in triggers :: HoldsVacuously(t)
    case Not(inner) => !HoldsVacuously(inner)
    case _ => false
  }

  lemma {:induction false} UnusedSensorMatchesByShape(trigger: TriggerSpec, sensor: string, message: string)
    requires !TriggerUsesSensor(trigger, sensor)
    ensures TriggerMatches(trigger, EventKind.SensorFailure(sensor, message)) <==> HoldsVacuously(trigger)
    decreases trigger
  {
    match trigger
    case All(triggers) =>
      forall t | t in triggers { UnusedSensorMatchesByShape(t, sensor, message); }
    case Any(triggers) =>
      forall t | t in triggers { UnusedSensorMatchesByShape(t, sensor, message); }
    case Not(inner) => UnusedSensorMatchesByShape(inner, sensor, message);
    case _ =>
  }

  /** A failure of a sensor is kept away from ordinary trigger matching exactly when the trigger uses the
      sensor or its shape alone does not satisfy it. */
  lemma FailureSeparationExact(trigger: TriggerSpec, sensor: string, message: string)
    ensures (TriggerMatches(trigger, EventKind.SensorFailure(sensor, message)) ==> TriggerUsesSensor(trigger, sensor))
            <==> (HoldsVacuously(trigger) ==> TriggerUsesSensor(trigger, sensor))
  {
    if !TriggerUsesSensor(trigger, sensor) {
      UnusedSensorMatchesByShape(trigger, sensor, message);
    }
  }

  /** `not tick` matches the failure of a sensor it does not use. */
  lemma NegationEscapesSeparation()
    ensures var t := TriggerSpec.Not(TriggerSpec.Tick);
            TriggerMatches(t, EventKind.SensorFailure("wifi", "")) && !TriggerUsesSensor(t, "wifi")
  {
    var t := TriggerSpec.Not(TriggerSpec.Tick);
    assert !TriggerUsesSensor(t.trigger, "wifi");
    UnusedSensorMatchesByShape(t, "wifi", "");
  }

  predicate NegationFree(trigger: TriggerSpec) {
    match trigger
    case All(triggers) => forall t | t in triggers :: NegationFree(t)
    case Any(triggers) => forall t | t in triggers :: NegationFree(t)
    case Sequence(steps, _) => forall t | t in steps :: NegationFree(t)
    case Not(_) => false
    case _ => true
  }

  /** No composite is empty, as configuration validation demands. */
  predicate NoEmptyComposite(trigger: TriggerSpec) {
    match trigger
    case All(triggers) => triggers != [] && forall t | t in triggers :: NoEmptyComposite(t)
    case Any(triggers) => triggers != [] && forall t | t in triggers :: NoEmptyComposite(t)
    case Sequence(steps, _) => forall t | t in steps :: NoEmptyComposite(t)
    case Not(inner) => NoEmptyComposite(inner)
    case _ => true
  }

  lemma {:induction false} NegationFreeNeedsALeaf(trigger: TriggerSpec)
    requires NegationFree(trigger) && NoEmptyComposite(trigger)
    ensures !HoldsVacuously(trigger)
    decreases trigger
  {
    match trigger
    case All(triggers) => NegationFreeNeedsALeaf(triggers[0]);
    case Any(triggers) => forall t | t in triggers { NegationFreeNeedsALeaf(t); }
    case _ =>
  }

  lemma FailureSeparation(trigger: TriggerSpec, sensor: string, message: string)
    requires NegationFree(trigger) && NoEmptyComposite(trigger)
    requires TriggerMatches(trigger, EventKind.SensorFailure(sensor, message))
    ensures TriggerUsesSensor(trigger, sensor)
  {
    NegationFreeNeedsALeaf(trigger);
    FailureSeparationExact(trigger, sensor, message);
  }
}
