/** Which sensors a configuration needs, collected by recursion over its triggers and conditions. */
module Requirements {
  import opened Options
  import opened Config
  import opened Events
  import opened Matching

  datatype Needs = Needs(
    fileWatches: map<Path, bool>, wifi: bool, network: bool, usb: bool, mounts: bool, processes: set<string>,
    services: set<string>, ports: set<PortKey>, sessions: bool, power: bool, integrity: bool)

  const NOTHING := Needs(map[], false, false, false, false, {}, {}, {}, false, false, false)

  function PortNeeds(port: Option<u16>, protocol: Option<NetworkProtocol>): set<PortKey> {
    if port.None? then {}
    else if protocol.Some? then {(protocol.value, port.value)}
    else {(Tcp, port.value), (Udp, port.value)}
  }

  function NameNeeds(name: Option<string>): set<string> {
    if name.Some? then {name.value} else {}
  }

  function CollectTrigger(trigger: TriggerSpec, n: Needs): Needs
    decreases trigger, 1
  {
    match trigger
    case File(path, _, recursive) => n.(fileWatches := n.fileWatches[path := recursive])
    case WifiChanged(_, _, _) => n.(wifi := true)
    case NetworkChanged(_, _, _) => n.(network := true)
    case Usb(_, _, _, _) => n.(usb := true)
    case Mount(_, _) => n.(mounts := true)
    case Process(name, _) => n.(processes := n.processes + NameNeeds(name))
    case Service(name, _) => n.(services := n.services + NameNeeds(name))
    case Port(port, _, protocol) => n.(ports := n.ports + PortNeeds(port, protocol))
    case Session(_, _, _) => n.(sessions := true)
    case Power(_, _, _) => n.(power := true)
    case IntegrityFailure(_) => n.(integrity := true)
    case All(triggers) => CollectTriggers(triggers, n)
    case Any(triggers) => CollectTriggers(triggers, n)
    case Sequence(steps, _) => CollectTriggers(steps, n)
    case Not(inner) => CollectTrigger(inner, n)
    case _ => n
  }

  function CollectTriggers(triggers: seq<TriggerSpec>, n: Needs): Needs
    decreases triggers, 0
  {
    if triggers == [] then n
    else CollectTrigger(triggers[|triggers| - 1], CollectTriggers(triggers[..|triggers| - 1], n))
  }

  function CollectHealth(sensor: string, n: Needs): Needs {
    n.(wifi := n.wifi || sensor == "wifi", network := n.network || sensor == "network", usb := n.usb || sensor == "usb",
       mounts := n.mounts || sensor == "mounts", sessions := n.sessions || sensor == "sessions",
       power := n.power || sensor == "power",
       integrity := n.integrity || sensor == "integrity" || sensor == "configuration" || sensor == "binary")
  }

  function CollectCondition(condition: ConditionSpec, n: Needs): Needs
    decreases condition, 1
  {
    match condition
    case Wifi(_, _, _) => n.(wifi := true)
    case Network(_, _, _) => n.(network := true)
    case Mounted(_, _) => n.(mounts := true)
    case Process(name, _) => n.(processes := n.processes + {name})
    case Service(name, _) => n.(services := n.services + {name})
    case Port(port, _, protocol) => n.(ports := n.ports + {(protocol, port)})
    case Session(_, _, _) => n.(sessions := true)
    case Power(_, _, _) => n.(power := true)
    case All(conditions) => CollectConditions(conditions, n)
    case Any(conditions) => CollectConditions(conditions, n)
    case Not(inner) => CollectCondition(inner, n)
    case SensorHealthy(sensor, _) => CollectHealth(sensor, n)
    case _ => n
  }

  function CollectConditions(conditions: seq<ConditionSpec>, n: Needs): Needs
    decreases conditions, 0
  {
    if conditions == [] then n
    else CollectCondition(conditions[|conditions| - 1], CollectConditions(conditions[..|conditions| - 1], n))
  }

  function CollectRule(rule: Rule, n: Needs): Needs {
    var m := CollectTrigger(rule.trigger, n);
    if rule.when.Some? then CollectCondition(rule.when.value, m) else m
  }

  function CollectRules(rules: seq<Rule>): Needs {
    if rules == [] then NOTHING else CollectRule(rules[|rules| - 1], CollectRules(rules[..|rules| - 1]))
  }

  /** The accumulator the collectors write into. */
  class SensorRequirements {
    var needs: Needs

    constructor ()
      ensures needs == NOTHING
    {
      needs := NOTHING;
    }

    method AddTrigger(trigger: TriggerSpec)
      modifies this
      ensures needs == CollectTrigger(trigger, old(needs))
      decreases trigger, 1
    {
      match trigger {
        case File(path, _, recursive) => needs := needs.(fileWatches := needs.fileWatches[path := recursive]);
        case WifiChanged(_, _, _) => needs := needs.(wifi := true);
        case NetworkChanged(_, _, _) => needs := needs.(network := true);
        case Usb(_, _, _, _) => needs := needs.(usb := true);
        case Mount(_, _) => needs := needs.(mounts := true);
        case Process(name, _) => needs := needs.(processes := needs.processes + NameNeeds(name));
        case Service(name, _) => needs := needs.(services := needs.services + NameNeeds(name));
        case Port(port, _, protocol) => needs := needs.(ports := needs.ports + PortNeeds(port, protocol));
        case Session(_, _, _) => needs := needs.(sessions := true);
        case Power(_, _, _) => needs := needs.(power := true);
        case IntegrityFailure(_) => needs := needs.(integrity := true);
        case All(triggers) => AddTriggers(triggers);
        case Any(triggers) => AddTriggers(triggers);
        case Sequence(steps, _) => AddTriggers(steps);
        case Not(inner) => AddTrigger(inner);
        case _ =>
      }
    }

    method AddTriggers(triggers: seq<TriggerSpec>)
      modifies this
      ensures needs == CollectTriggers(triggers, old(needs))
      decreases triggers, 0
    {
      for i := 0 to |triggers|
        invariant needs == CollectTriggers(triggers[..i], old(needs))
      {
        assert triggers[..i + 1][..i] == triggers[..i];
        AddTrigger(triggers[i]);
      }
      assert triggers[..|triggers|] == triggers;
    }

    method AddCondition(condition: ConditionSpec)
      modifies this
      ensures needs == CollectCondition(condition, old(needs))
      decreases condition, 1
    {
      match condition {
        case Wifi(_, _, _) => needs := needs.(wifi := true);
        case Network(_, _, _) => needs := needs.(network := true);
        case Mounted(_, _) => needs := needs.(mounts := true);
        case Process(name, _) => needs := needs.(processes := needs.processes + {name});
        case Service(name, _) => needs := needs.(services := needs.services + {name});
        case Port(port, _, protocol) => needs := needs.(ports := needs.ports + {(protocol, port)});
        case Session(_, _, _) => needs := needs.(sessions := true);
        case Power(_, _, _) => needs := needs.(power := true);
        case All(conditions) => AddConditions(conditions);
        case Any(conditions) => AddConditions(conditions);
        case Not(inner) => AddCondition(inner);
        case SensorHealthy(sensor, _) => needs := CollectHealth(sensor, needs);
        case _ =>
      }
    }

    method AddConditions(conditions: seq<ConditionSpec>)
      modifies this
      ensures needs == CollectConditions(conditions, old(needs))
      decreases conditions, 0
    {
      for i := 0 to |conditions|
        invariant needs == CollectConditions(conditions[..i], old(needs))
      {
        assert conditions[..i + 1][..i] == conditions[..i];
        AddCondition(conditions[i]);
      }
      assert conditions[..|conditions|] == conditions;
    }

    method AddRules(rules: seq<Rule>)
      requires needs == NOTHING
      modifies this
      ensures needs == CollectRules(rules)
    {
      for i := 0 to |rules|
        invariant needs == CollectRules(rules[..i])
      {
        assert rules[..i + 1][..i] == rules[..i];
        AddTrigger(rules[i].trigger);
        if rules[i].when.Some? {
          AddCondition(rules[i].when.value);
        }
      }
      assert rules[..|rules|] == rules;
    }
  }

  // ---------------------------------------------------------------- collecting only adds

  /** Everything `a` asks for, `b` asks for. */
  predicate Within(a: Needs, b: Needs) {
    && a.fileWatches.Keys <= b.fileWatches.Keys
    && (a.wifi ==> b.wifi) && (a.network ==> b.network) && (a.usb ==> b.usb) && (a.mounts ==> b.mounts)
    && a.processes <= b.processes && a.services <= b.services && a.ports <= b.ports
    && (a.sessions ==> b.sessions) && (a.power ==> b.power) && (a.integrity ==> b.integrity)
  }

  lemma {:induction false} TriggerOnlyAdds(trigger: TriggerSpec, n: Needs)
    ensures Within(n, CollectTrigger(trigger, n))
    decreases trigger, 1
  {
    match trigger
    case All(triggers) => TriggersOnlyAdd(triggers, n);
    case Any(triggers) => TriggersOnlyAdd(triggers, n);
    case Sequence(steps, _) => TriggersOnlyAdd(steps, n);
    case Not(inner) => TriggerOnlyAdds(inner, n);
    case _ =>
  }

  lemma {:induction false} TriggersOnlyAdd(triggers: seq<TriggerSpec>, n: Needs)
    ensures Within(n, CollectTriggers(triggers, n))
    decreases triggers, 0
  {
    if triggers != [] {
      TriggersOnlyAdd(triggers[..|triggers| - 1], n);
      TriggerOnlyAdds(triggers[|triggers| - 1], CollectTriggers(triggers[..|triggers| - 1], n));
    }
  }

  lemma {:induction false} ConditionOnlyAdds(condition: ConditionSpec, n: Needs)
    ensures Within(n, CollectCondition(condition, n))
    decreases condition, 1
  {
    match condition
    case All(conditions) => ConditionsOnlyAdd(conditions, n);
    case Any(conditions) => ConditionsOnlyAdd(conditions, n);
    case Not(inner) => ConditionOnlyAdds(inner, n);
    case SensorHealthy(sensor, _) => HealthOnlyAdds(sensor, n);
    case _ =>
  }

  lemma HealthOnlyAdds(sensor: string, n: Needs)
    ensures Within(n, CollectHealth(sensor, n))
  {
  }

  lemma {:induction false} ConditionsOnlyAdd(conditions: seq<ConditionSpec>, n: Needs)
    ensures Within(n, CollectConditions(conditions, n))
    decreases conditions, 0
  {
    if conditions != [] {
      ConditionsOnlyAdd(conditions[..|conditions| - 1], n);
      ConditionOnlyAdds(conditions[|conditions| - 1], CollectConditions(conditions[..|conditions| - 1], n));
    }
  }

  // ---------------------------------------------------------------- condition footprint

  /** `n` includes the sensors that report everything the condition looks at. */
  predicate Provides(n: Needs, condition: ConditionSpec) {
    match condition
    case All(conditions) => forall c | c in conditions :: Provides(n, c)
    case Any(conditions) => forall c | c in conditions :: Provides(n, c)
    case Not(inner) => Provides(n, inner)
    case Wifi(_, _, _) => n.wifi
    case Network(_, _, _) => n.network
    case Mounted(_, _) => n.mounts
    case Process(name, _) => name in n.processes
    case Service(name, _) => name in n.services
    case Port(port, _, protocol) => (protocol, port) in n.ports
    case Session(_, _, _) => n.sessions
    case Power(_, _, _) => n.power
    case _ => true
  }

  lemma {:induction false} ProvidesMore(a: Needs, b: Needs, condition: ConditionSpec)
    requires Within(a, b) && Provides(a, condition)
    ensures Provides(b, condition)
    decreases condition
  {
    match condition
    case All(conditions) => forall c | c in conditions { ProvidesMore(a, b, c); }
    case Any(conditions) => forall c | c in conditions { ProvidesMore(a, b, c); }
    case Not(inner) => ProvidesMore(a, b, inner);
    case _ =>
  }

  lemma {:induction false} CollectedIsProvided(condition: ConditionSpec, n: Needs)
    ensures Provides(CollectCondition(condition, n), condition)
    decreases condition, 1
  {
    match condition
    case All(conditions) => AllCollectedProvided(conditions, n);
    case Any(conditions) => AllCollectedProvided(conditions, n);
    case Not(inner) => CollectedIsProvided(inner, n);
    case _ =>
  }

  lemma {:induction false} AllCollectedProvided(conditions: seq<ConditionSpec>, n: Needs)
    ensures forall c | c in conditions :: Provides(CollectConditions(conditions, n), c)
    decreases conditions, 0
  {
    if conditions != [] {
      var front, last := conditions[..|conditions| - 1], conditions[|conditions| - 1];
      var m := CollectConditions(front, n);
      AllCollectedProvided(front, n);
      ConditionOnlyAdds(last, m);
      CollectedIsProvided(last, m);
      forall c | c in conditions ensures Provides(CollectConditions(conditions, n), c) {
        if c in front {
          ProvidesMore(m, CollectConditions(conditions, n), c);
        } else {
          assert c == last;
        }
      }
    }
  }

  /** Two snapshots that agree on the clock, the mode, sensor health and whatever the collected sensors report. */
  predicate AgreeOn(n: Needs, a: Snapshot, b: Snapshot) {
    && a.now == b.now && a.mode == b.mode && a.sensorHealth == b.sensorHealth
    && (n.wifi ==> a.wifi == b.wifi) && (n.network ==> a.network == b.network) && (n.mounts ==> a.mounts == b.mounts)
    && (forall p | p in n.processes :: p in a.processes <==> p in b.processes)
    && (forall s | s in n.services :: (s in a.services && a.services[s]) <==> (s in b.services && b.services[s]))
    && (forall p | p in n.ports :: p in a.ports <==> p in b.ports)
    && (n.sessions ==> a.session == b.session) && (n.power ==> a.power == b.power)
  }

  lemma {:induction false} ProvidedDecides(n: Needs, condition: ConditionSpec, a: Snapshot, b: Snapshot, host: Host)
    requires Provides(n, condition) && AgreeOn(n, a, b)
    ensures ConditionMatches(condition, a, host) <==> ConditionMatches(condition, b, host)
    decreases condition
  {
    match condition
    case All(conditions) => forall c | c in conditions { ProvidedDecides(n, c, a, b, host); }
    case Any(conditions) => forall c | c in conditions { ProvidedDecides(n, c, a, b, host); }
    case Not(inner) => ProvidedDecides(n, inner, a, b, host);
    case _ =>
  }

  /** A condition, however nested, depends on nothing beyond what was collected for it. */
  lemma ConditionFootprint(condition: ConditionSpec, n: Needs, a: Snapshot, b: Snapshot, host: Host)
    requires AgreeOn(CollectCondition(condition, n), a, b)
    ensures ConditionMatches(condition, a, host) <==> ConditionMatches(condition, b, host)
  {
    CollectedIsProvided(condition, n);
    ProvidedDecides(CollectCondition(condition, n), condition, a, b, host);
  }

  lemma {:induction false} RulesProvideConditions(rules: seq<Rule>, rule: Rule)
    requires rule in rules && rule.when.Some?
    ensures Provides(CollectRules(rules), rule.when.value)
  {
    var front, last := rules[..|rules| - 1], rules[|rules| - 1];
    var n := CollectRules(front);
    var m := CollectTrigger(last.trigger, n);
    TriggerOnlyAdds(last.trigger, n);
    if rule in front {
      RulesProvideConditions(front, rule);
      ProvidesMore(n, m, rule.when.value);
      if last.when.Some? {
        ConditionOnlyAdds(last.when.value, m);
        ProvidesMore(m, CollectRules(rules), rule.when.value);
      }
    } else {
      CollectedIsProvided(rule.when.value, m);
    }
  }

  /** The whole configuration's sensors decide the condition of each of its rules. */
  lemma ConfigurationFootprint(rules: seq<Rule>, rule: Rule, a: Snapshot, b: Snapshot, host: Host)
    requires rule in rules && rule.when.Some? && AgreeOn(CollectRules(rules), a, b)
    ensures ConditionMatches(rule.when.value, a, host) <==> ConditionMatches(rule.when.value, b, host)
  {
    RulesProvideConditions(rules, rule);
    ProvidedDecides(CollectRules(rules), rule.when.value, a, b, host);
  }

  // ---------------------------------------------------------------- triggers are watched

  /** A sensor that could report this kind of event has been asked for. */
  predicate Watched(n: Needs, kind: EventKind) {
    match kind
    case Wifi(_, _, _) => n.wifi
    case Network(_, _, _) => n.network
    case Usb(_, _, _, _) => n.usb
    case Mount(_, _, _) => n.mounts
    case Process(name, _) => name in n.processes
    case Service(name, _) => name in n.services
    case Port(port, protocol, _) => (protocol, port) in n.ports
    case Session(_, _, _) => n.sessions
    case Power(_, _, _) => n.power
    case Integrity(_, _, _) => n.integrity
    case File(path, _) => exists w | w in n.fileWatches :: path.StartsWith(w)
    case _ => true
  }

  /** Process, service and port triggers name what they are about, as validation demands. */
  predicate NamesTargets(trigger: TriggerSpec) {
    match trigger
    case Process(name, _) => name.Some?
    case Service(name, _) => name.Some?
    case Port(port, _, _) => port.Some?
    case All(triggers) => forall t | t in triggers :: NamesTargets(t)
    case Any(triggers) => forall t | t in triggers :: NamesTargets(t)
    case Sequence(steps, _) => forall t | t in steps :: NamesTargets(t)
    case Not(inner) => NamesTargets(inner)
    case _ => true
  }

  lemma WatchedMore(a: Needs, b: Needs, kind: EventKind)
    requires Within(a, b) && Watched(a, kind)
    ensures Watched(b, kind)
  {
  }

  /** Whatever a negation-free validated trigger can match, a collected sensor can report. */
  lemma {:induction false} MatchesAreWatched(trigger: TriggerSpec, kind: EventKind, n: Needs)
    requires TriggerMatches(trigger, kind) && NegationFree(trigger) && NoEmptyComposite(trigger) && NamesTargets(trigger)
    ensures Watched(CollectTrigger(trigger, n), kind)
    decreases trigger, 1
  {
    match trigger
    case All(triggers) =>
      assert triggers[0] in triggers;
      OneMatchIsWatched(triggers, triggers[0], kind, n);
    case Any(triggers) =>
      var t :| t in triggers && TriggerMatches(t, kind);
      OneMatchIsWatched(triggers, t, kind, n);
    case File(path, _, _) => assert path in CollectTrigger(trigger, n).fileWatches;
    case Port(port, _, protocol) => PortIsWatched(port, protocol, kind.port, kind.protocol);
    case _ => LeafIsWatched(trigger, kind, n);
  }

  lemma PortIsWatched(port: Option<u16>, protocol: Option<NetworkProtocol>, actual: u16, transport: NetworkProtocol)
    requires port == Some(actual) && Accepts(protocol, transport)
    ensures (transport, actual) in PortNeeds(port, protocol)
  {
    assert transport == Tcp || transport == Udp;
  }

  lemma LeafIsWatched(trigger: TriggerSpec, kind: EventKind, n: Needs)
    requires TriggerMatches(trigger, kind) && NamesTargets(trigger)
    requires !trigger.All? && !trigger.Any? && !trigger.Not? && !trigger.Port? && !trigger.File?
    ensures Watched(CollectTrigger(trigger, n), kind)
  {
  }

  lemma {:induction false} OneMatchIsWatched(triggers: seq<TriggerSpec>, t: TriggerSpec, kind: EventKind, n: Needs)
    requires t in triggers && TriggerMatches(t, kind) && NegationFree(t) && NoEmptyComposite(t) && NamesTargets(t)
    ensures Watched(CollectTriggers(triggers, n), kind)
    decreases triggers, 0
  {
    var front, last := triggers[..|triggers| - 1], triggers[|triggers| - 1];
    var m := CollectTriggers(front, n);
    if t in front {
      OneMatchIsWatched(front, t, kind, n);
      TriggerOnlyAdds(last, m);
      WatchedMore(m, CollectTriggers(triggers, n), kind);
    } else {
      MatchesAreWatched(last, kind, m);
    }
  }

  // ---------------------------------------------------------------- whose recursive flag counts

  /** The flag of the last file trigger, in collecting order, that names `path`. */
  function LastFlag(trigger: TriggerSpec, path: Path): Option<bool>
    decreases trigger, 1
  {
    match trigger
    case File(watched, _, recursive) => if watched == path then Some(recursive) else None
    case All(triggers) => LastFlagOfAll(triggers, path)
    case Any(triggers) => LastFlagOfAll(triggers, path)
    case Sequence(steps, _) => LastFlagOfAll(steps, path)
    case Not(inner) => LastFlag(inner, path)
    case _ => None
  }

  function LastFlagOfAll(triggers: seq<TriggerSpec>, path: Path): Option<bool>
    decreases triggers, 0
  {
    if triggers == [] then None
    else
      var last := LastFlag(triggers[|triggers| - 1], path);
      if last.Some? then last else LastFlagOfAll(triggers[..|triggers| - 1], path)
  }

  function LastFlagOfRules(rules: seq<Rule>, path: Path): Option<bool> {
    if rules == [] then None
    else
      var last := LastFlag(rules[|rules| - 1].trigger, path);
      if last.Some? then last else LastFlagOfRules(rules[..|rules| - 1], path)
  }

  function FlagIn(n: Needs, path: Path): Option<bool> {
    if path in n.fileWatches then Some(n.fileWatches[path]) else None
  }

  lemma {:induction false} TriggerFlag(trigger: TriggerSpec, path: Path, n: Needs)
    ensures FlagIn(CollectTrigger(trigger, n), path) ==
            if LastFlag(trigger, path).Some? then LastFlag(trigger, path) else FlagIn(n, path)
    decreases trigger, 1
  {
    match trigger
    case All(triggers) => TriggerFlags(triggers, path, n);
    case Any(triggers) => TriggerFlags(triggers, path, n);
    case Sequence(steps, _) => TriggerFlags(steps, path, n);
    case Not(inner) => TriggerFlag(inner, path, n);
    case _ =>
  }

  lemma {:induction false} TriggerFlags(triggers: seq<TriggerSpec>, path: Path, n: Needs)
    ensures FlagIn(CollectTriggers(triggers, n), path) ==
            if LastFlagOfAll(triggers, path).Some? then LastFlagOfAll(triggers, path) else FlagIn(n, path)
    decreases triggers, 0
  {
    if triggers != [] {
      var front := triggers[..|triggers| - 1];
      TriggerFlags(front, path, n);
      TriggerFlag(triggers[|triggers| - 1], path, CollectTriggers(front, n));
    }
  }

  lemma {:induction false} ConditionsWatchNoFiles(condition: ConditionSpec, n: Needs)
    ensures CollectCondition(condition, n).fileWatches == n.fileWatches
    decreases condition, 1
  {
    match condition
    case All(conditions) => AllWatchNoFiles(conditions, n);
    case Any(conditions) => AllWatchNoFiles(conditions, n);
    case Not(inner) => ConditionsWatchNoFiles(inner, n);
    case _ =>
  }

  lemma {:induction false} AllWatchNoFiles(conditions: seq<ConditionSpec>, n: Needs)
    ensures CollectConditions(conditions, n).fileWatches == n.fileWatches
    decreases conditions, 0
  {
    if conditions != [] {
      var front := conditions[..|conditions| - 1];
      AllWatchNoFiles(front, n);
      ConditionsWatchNoFiles(conditions[|conditions| - 1], CollectConditions(front, n));
    }
  }

  /** A path is watched, recursively or not, exactly as the last file trigger of the configuration that names it says:
      an earlier recursive one is kept only if no later one narrows it. */
  lemma {:induction false} WatchFlagExact(rules: seq<Rule>, path: Path)
    ensures FlagIn(CollectRules(rules), path) == LastFlagOfRules(rules, path)
  {
    if rules != [] {
      var front, last := rules[..|rules| - 1], rules[|rules| - 1];
      WatchFlagExact(front, path);
      TriggerFlag(last.trigger, path, CollectRules(front));
      if last.when.Some? {
        ConditionsWatchNoFiles(last.when.value, CollectTrigger(last.trigger, CollectRules(front)));
      }
    }
  }

  /** The watch collected for a path covers everything a file trigger on it matches exactly when the trigger is not
      recursive or the last file trigger naming the path is. */
  lemma WatchCoversExact(rules: seq<Rule>, path: Path, recursive: bool)
    requires LastFlagOfRules(rules, path).Some?
    ensures path in CollectRules(rules).fileWatches
    ensures (forall p | PathMatches(path, p, recursive) :: PathMatches(path, p, CollectRules(rules).fileWatches[path])) <==>
            (recursive ==> LastFlagOfRules(rules, path).value)
  {
    WatchFlagExact(rules, path);
    var below := Path(path.absolute, path.components + ["a"]);
    assert |below.components| != |path.components|;
    assert PathMatches(path, below, true) && !PathMatches(path, below, false);
  }

  /** Two watches of one path: the later flag wins, so a recursive watch can be narrowed. */
  lemma RecursiveFlagOverwritten(path: Path, operations: seq<FileOperation>, n: Needs)
    ensures var wide, narrow := TriggerSpec.File(path, operations, true), TriggerSpec.File(path, operations, false);
            FlagIn(CollectTrigger(TriggerSpec.Any([wide, narrow]), n), path) == Some(false)
  {
    var wide, narrow := TriggerSpec.File(path, operations, true), TriggerSpec.File(path, operations, false);
    TriggerFlags([wide, narrow], path, n);
    assert LastFlag(narrow, path) == Some(false);
  }

  // ---------------------------------------------------------------- nothing more is collected

  /** One thing a sensor can be asked to watch. */
  datatype Want = WantFile(path: Path) | WantWifi | WantNetwork | WantUsb | WantMounts | WantProcess(name: string)
                | WantService(name: string) | WantPort(port: PortKey) | WantSessions | WantPower | WantIntegrity

  predicate Asked(n: Needs, w: Want) {
    match w
    case WantFile(path) => path in n.fileWatches
    case WantWifi => n.wifi
    case WantNetwork => n.network
    case WantUsb => n.usb
    case WantMounts => n.mounts
    case WantProcess(name) => name in n.processes
    case WantService(name) => name in n.services
    case WantPort(port) => port in n.ports
    case WantSessions => n.sessions
    case WantPower => n.power
    case WantIntegrity => n.integrity
  }

  /** Some leaf of the trigger is about it. A port without a protocol is wanted under both. */
  predicate TriggerAsks(trigger: TriggerSpec, w: Want) {
    match trigger
    case File(path, _, _) => w == WantFile(path)
    case WifiChanged(_, _, _) => w == WantWifi
    case NetworkChanged(_, _, _) => w == WantNetwork
    case Usb(_, _, _, _) => w == WantUsb
    case Mount(_, _) => w == WantMounts
    case Process(name, _) => name.Some? && w == WantProcess(name.value)
    case Service(name, _) => name.Some? && w == WantService(name.value)
    case Port(port, _, protocol) =>
      w.WantPort? && port == Some(w.port.1) && (protocol.None? || protocol == Some(w.port.0))
    case Session(_, _, _) => w == WantSessions
    case Power(_, _, _) => w == WantPower
    case IntegrityFailure(_) => w == WantIntegrity
    case All(triggers) => exists t | t in triggers :: TriggerAsks(t, w)
    case Any(triggers) => exists t | t in triggers :: TriggerAsks(t, w)
    case Sequence(steps, _) => exists t | t in steps :: TriggerAsks(t, w)
    case Not(inner) => TriggerAsks(inner, w)
    case _ => false
  }

  predicate ConditionAsks(condition: ConditionSpec, w: Want) {
    match condition
    case Wifi(_, _, _) => w == WantWifi
    case Network(_, _, _) => w == WantNetwork
    case Mounted(_, _) => w == WantMounts
    case Process(name, _) => w == WantProcess(name)
    case Service(name, _) => w == WantService(name)
    case Port(port, _, protocol) => w == WantPort((protocol, port))
    case Session(_, _, _) => w == WantSessions
    case Power(_, _, _) => w == WantPower
    case All(conditions) => exists c | c in conditions :: ConditionAsks(c, w)
    case Any(conditions) => exists c | c in conditions :: ConditionAsks(c, w)
    case Not(inner) => ConditionAsks(inner, w)
    case SensorHealthy(sensor, _) => HealthAsks(sensor, w)
    case _ => false
  }

  predicate HealthAsks(sensor: string, w: Want) {
    || (sensor == "wifi" && w == WantWifi) || (sensor == "network" && w == WantNetwork) || (sensor == "usb" && w == WantUsb)
    || (sensor == "mounts" && w == WantMounts) || (sensor == "sessions" && w == WantSessions)
    || (sensor == "power" && w == WantPower)
    || ((sensor == "integrity" || sensor == "configuration" || sensor == "binary") && w == WantIntegrity)
  }

  lemma PortAsked(port: Option<u16>, protocol: Option<NetworkProtocol>, key: PortKey)
    ensures key in PortNeeds(port, protocol) <==> port == Some(key.1) && (protocol.None? || protocol == Some(key.0))
  {
    assert key == (key.0, key.1) && (key.0 == Tcp || key.0 == Udp);
  }

  lemma {:induction false} TriggerCollects(trigger: TriggerSpec, n: Needs, w: Want)
    ensures Asked(CollectTrigger(trigger, n), w) <==> Asked(n, w) || TriggerAsks(trigger, w)
    decreases trigger, 1
  {
    match trigger
    case All(triggers) => TriggersCollect(triggers, n, w);
    case Any(triggers) => TriggersCollect(triggers, n, w);
    case Sequence(steps, _) => TriggersCollect(steps, n, w);
    case Not(inner) => TriggerCollects(inner, n, w);
    case Port(_, _, _) => PortCollects(trigger, n, w);
    case _ => LeafCollects(trigger, n, w);
  }

  lemma PortCollects(trigger: TriggerSpec, n: Needs, w: Want)
    requires trigger.Port?
    ensures Asked(CollectTrigger(trigger, n), w) <==> Asked(n, w) || TriggerAsks(trigger, w)
  {
    PortsAsked(n, PortNeeds(trigger.port, trigger.protocol), w);
    if w.WantPort? {
      PortAsked(trigger.port, trigger.protocol, w.port);
    }
  }

  lemma LeafCollects(trigger: TriggerSpec, n: Needs, w: Want)
    requires !trigger.All? && !trigger.Any? && !trigger.Not? && !trigger.Sequence? && !trigger.Port?
    ensures Asked(CollectTrigger(trigger, n), w) <==> Asked(n, w) || TriggerAsks(trigger, w)
  {
    match trigger
    case File(path, _, recursive) => FileAsked(n, path, recursive, w);
    case Process(name, _) => ProcessesAsked(n, NameNeeds(name), w);
    case Service(name, _) => ServicesAsked(n, NameNeeds(name), w);
    case _ => PlainLeafCollects(trigger, n, w);
  }

  lemma FileAsked(n: Needs, path: Path, recursive: bool, w: Want)
    ensures Asked(n.(fileWatches := n.fileWatches[path := recursive]), w) <==> Asked(n, w) || w == WantFile(path)
  {
  }

  lemma ProcessesAsked(n: Needs, names: set<string>, w: Want)
    ensures Asked(n.(processes := n.processes + names), w) <==> Asked(n, w) || (w.WantProcess? && w.name in names)
  {
  }

  lemma ServicesAsked(n: Needs, names: set<string>, w: Want)
    ensures Asked(n.(services := n.services + names), w) <==> Asked(n, w) || (w.WantService? && w.name in names)
  {
  }

  lemma PortsAsked(n: Needs, ports: set<PortKey>, w: Want)
    ensures Asked(n.(ports := n.ports + ports), w) <==> Asked(n, w) || (w.WantPort? && w.port in ports)
  {
  }

  lemma PlainLeafCollects(trigger: TriggerSpec, n: Needs, w: Want)
    requires !trigger.All? && !trigger.Any? && !trigger.Not? && !trigger.Sequence? && !trigger.Port?
    requires !trigger.File? && !trigger.Process? && !trigger.Service?
    ensures Asked(CollectTrigger(trigger, n), w) <==> Asked(n, w) || TriggerAsks(trigger, w)
  {
  }

  lemma {:induction false} TriggersCollect(triggers: seq<TriggerSpec>, n: Needs, w: Want)
    ensures Asked(CollectTriggers(triggers, n), w) <==> Asked(n, w) || exists t | t in triggers :: TriggerAsks(t, w)
    decreases triggers, 0
  {
    if triggers != [] {
      var front, last := triggers[..|triggers| - 1], triggers[|triggers| - 1];
      TriggersCollect(front, n, w);
      TriggerCollects(last, CollectTriggers(front, n), w);
      assert triggers == front + [last];
    }
  }

  lemma {:induction false} ConditionCollects(condition: ConditionSpec, n: Needs, w: Want)
    ensures Asked(CollectCondition(condition, n), w) <==> Asked(n, w) || ConditionAsks(condition, w)
    decreases condition, 1
  {
    match condition
    case All(conditions) => ConditionsCollect(conditions, n, w);
    case Any(conditions) => ConditionsCollect(conditions, n, w);
    case Not(inner) => ConditionCollects(inner, n, w);
    case SensorHealthy(sensor, _) => HealthCollects(sensor, n, w);
    case _ => ConditionLeafCollects(condition, n, w);
  }

  lemma HealthCollects(sensor: string, n: Needs, w: Want)
    ensures Asked(CollectHealth(sensor, n), w) <==> Asked(n, w) || HealthAsks(sensor, w)
  {
  }

  lemma ConditionLeafCollects(condition: ConditionSpec, n: Needs, w: Want)
    requires !condition.All? && !condition.Any? && !condition.Not? && !condition.SensorHealthy?
    ensures Asked(CollectCondition(condition, n), w) <==> Asked(n, w) || ConditionAsks(condition, w)
  {
    match condition
    case Process(name, _) => ProcessesAsked(n, {name}, w);
    case Service(name, _) => ServicesAsked(n, {name}, w);
    case Port(port, _, protocol) => PortsAsked(n, {(protocol, port)}, w);
    case _ => PlainConditionCollects(condition, n, w);
  }

  lemma PlainConditionCollects(condition: ConditionSpec, n: Needs, w: Want)
    requires !condition.All? && !condition.Any? && !condition.Not? && !condition.SensorHealthy?
    requires !condition.Process? && !condition.Service? && !condition.Port?
    ensures Asked(CollectCondition(condition, n), w) <==> Asked(n, w) || ConditionAsks(condition, w)
  {
  }

  lemma {:induction false} ConditionsCollect(conditions: seq<ConditionSpec>, n: Needs, w: Want)
    ensures Asked(CollectConditions(conditions, n), w) <==> Asked(n, w) || exists c | c in conditions :: ConditionAsks(c, w)
    decreases conditions, 0
  {
    if conditions != [] {
      var front, last := conditions[..|conditions| - 1], conditions[|conditions| - 1];
      ConditionsCollect(front, n, w);
      ConditionCollects(last, CollectConditions(front, n), w);
      assert conditions == front + [last];
    }
  }

  predicate RuleAsks(rule: Rule, w: Want) {
    TriggerAsks(rule.trigger, w) || (rule.when.Some? && ConditionAsks(rule.when.value, w))
  }

  /** Something is collected for a configuration exactly when a leaf of a trigger or condition of one of its rules is about
      it: no sensor is left out and none is started in vain. */
  lemma {:induction false} NeedsExact(rules: seq<Rule>, w: Want)
    ensures Asked(CollectRules(rules), w) <==> exists r | r in rules :: RuleAsks(r, w)
  {
    if rules != [] {
      var front, last := rules[..|rules| - 1], rules[|rules| - 1];
      NeedsExact(front, w);
      TriggerCollects(last.trigger, CollectRules(front), w);
      if last.when.Some? {
        ConditionCollects(last.when.value, CollectTrigger(last.trigger, CollectRules(front)), w);
      }
      assert Asked(CollectRules(rules), w) <==> Asked(CollectRules(front), w) || RuleAsks(last, w);
      assert forall r :: r in rules <==> r in front || r == last by { assert rules == front + [last]; }
    }
  }
}
