/** Configuration validation: error-collecting loops and recursion against a declarative notion of validity. */
module Validation {
  import opened Options
  import opened Encoding
  import opened Config
  import opened Matching
  import opened Keys
  import opened Requirements

  datatype Problem =
    | Version | SocketPath | StatePath | PollInterval | EventBuffer | AllowedExecutable(path: Path)
    | ModeName(name: string) | DuplicateMode(name: string) | SeveralInitialModes
    | VaultName(name: string) | DuplicateVault(name: string) | VaultPath(name: string) | VaultPaths(name: string)
    | VaultKeyring(name: string)
    | HotkeyName(name: string) | DuplicateHotkey(name: string) | HotkeyDevice(name: string) | HotkeyLength(name: string)
    | HotkeyWindow(name: string) | HotkeyKey(name: string, key: string)
    | RuleId(name: string) | DuplicateRule(name: string) | NoActions(name: string)
    | BadTrigger(name: string) | BadCondition(name: string) | BadAction(name: string)

  type Errors = seq<Problem>

  /** What a check adds: nothing, or one or more reports of one problem, exactly when it is present. */
  ghost predicate Reports(errors: Errors, out: Errors, problem: Problem, present: bool) {
    errors <= out && (out == errors <==> !present) && forall i | |errors| <= i < |out| :: out[i] == problem
  }

  lemma ReportedExactly(errors: Errors, out: Errors, problem: Problem, present: bool)
    requires Reports(errors, out, problem, present)
    ensures forall p :: p in out <==> p in errors || (present && p == problem)
  {
    assert out == errors + out[|errors|..];
    if present {
      assert out[|errors|] == problem;
    }
  }

  lemma ReportsTwice(errors: Errors, mid: Errors, out: Errors, problem: Problem, present: bool, again: bool)
    requires Reports(errors, mid, problem, present) && Reports(mid, out, problem, again)
    ensures Reports(errors, out, problem, present || again)
  {
    forall i | |errors| <= i < |out| ensures out[i] == problem {
      if i < |mid| {
        assert out[i] == mid[i];
      }
    }
  }

  /** Pushes one report if there is something to report. */
  method Note(errors: Errors, problem: Problem, present: bool) returns (out: Errors)
    ensures Reports(errors, out, problem, present)
    ensures forall p :: p in out <==> p in errors || (present && p == problem)
  {
    out := if present then errors + [problem] else errors;
  }

  // ---------------------------------------------------------------- names

  predicate ValidIdentifier(s: string) {
    s != "" && forall c | c in s :: AsciiAlphanumeric(c) || c == '_' || c == '.' || c == '-'
  }

  predicate ValidInterfaceName(s: string) {
    s != "" && |s| <= 15 && forall c | c in s :: AsciiAlphanumeric(c) || c == '_' || c == '-' || c == '.' || c == ':'
  }

  predicate ValidUnitName(s: string) {
    s != "" && |s| <= 255 && '/' !in s &&
    forall c | c in s :: AsciiAlphanumeric(c) || c == '_' || c == '-' || c == '.' || c == '@'
  }

  predicate ValidKeyring(s: string) {
    s != "" && |Utf8(s)| <= 128 && forall c | c in s :: !(c as int < 0x20 || 0x7F <= c as int < 0xA0)
  }

  predicate ValidDigest(s: string) {
    |s| == 64 && forall c | c in s :: '0' <= c <= '9' || 'a' <= c <= 'f' || 'A' <= c <= 'F'
  }

  predicate ValidVariable(s: string) {
    forall c | c in s :: 'A' <= c <= 'Z' || '0' <= c <= '9' || c == '_'
  }

  // ---------------------------------------------------------------- triggers and conditions

  const MAX_DEPTH := 16

  predicate TriggerValid(trigger: TriggerSpec, depth: nat, hotkeys: set<string>)
    decreases trigger
  {
    depth <= MAX_DEPTH &&
    match trigger
    case File(path, _, _) => path.absolute
    case Power(_, Some(limit), _) => limit <= 100
    case Process(name, _) => name.Some?
    case Service(name, _) => name.Some?
    case Port(port, _, _) => port.Some?
    case Hotkey(name) => name in hotkeys
    case All(triggers) => triggers != [] && forall t | t in triggers :: TriggerValid(t, depth + 1, hotkeys)
    case Any(triggers) => triggers != [] && forall t | t in triggers :: TriggerValid(t, depth + 1, hotkeys)
    case Not(inner) => TriggerValid(inner, depth + 1, hotkeys)
    case Sequence(steps, within) =>
      && |steps| >= 2 && within > 0
      && (forall t | t in steps :: !t.Sequence?) && (forall t | t in steps :: TriggerValid(t, depth + 1, hotkeys))
    case _ => true
  }

  method ValidateTrigger(trigger: TriggerSpec, rule: string, depth: nat, hotkeys: set<string>, errors: Errors)
    returns (out: Errors)
    ensures Reports(errors, out, BadTrigger(rule), !TriggerValid(trigger, depth, hotkeys))
    decreases trigger, 1
  {
    out := errors;
    if depth > 16 {
      out := Note(errors, BadTrigger(rule), true);
      return;
    }
    match trigger {
      case File(path, _, _) => out := Note(errors, BadTrigger(rule), !path.absolute);
      case Power(_, battery, _) => out := Note(errors, BadTrigger(rule), battery.Some? && battery.value > 100);
      case Process(name, _) => out := Note(errors, BadTrigger(rule), name.None?);
      case Service(name, _) => out := Note(errors, BadTrigger(rule), name.None?);
      case Port(port, _, _) => out := Note(errors, BadTrigger(rule), port.None?);
      case Hotkey(name) => out := Note(errors, BadTrigger(rule), name !in hotkeys);
      case All(triggers) => out := ValidateComposite(triggers, rule, depth, hotkeys, errors);
      case Any(triggers) => out := ValidateComposite(triggers, rule, depth, hotkeys, errors);
      case Not(inner) => out := ValidateTrigger(inner, rule, depth + 1, hotkeys, errors);
      case Sequence(steps, within) => out := ValidateSequence(steps, within, rule, depth, hotkeys, errors);
      case _ =>
    }
  }

  method ValidateComposite(triggers: seq<TriggerSpec>, rule: string, depth: nat, hotkeys: set<string>, errors: Errors)
    returns (out: Errors)
    ensures Reports(errors, out, BadTrigger(rule), triggers == [] || exists t | t in triggers :: !TriggerValid(t, depth + 1, hotkeys))
    decreases triggers, 2
  {
    var mid := Note(errors, BadTrigger(rule), triggers == []);
    out := ValidateTriggers(triggers, rule, depth + 1, hotkeys, false, mid);
    ReportsTwice(errors, mid, out, BadTrigger(rule), triggers == [], SomeBad(triggers, depth + 1, hotkeys, false));
  }

  method ValidateSequence(steps: seq<TriggerSpec>, within: nat, rule: string, depth: nat, hotkeys: set<string>, errors: Errors)
    returns (out: Errors)
    ensures Reports(errors, out, BadTrigger(rule), |steps| < 2 || within == 0 || SomeBad(steps, depth + 1, hotkeys, true))
    decreases steps, 2
  {
    var short := Note(errors, BadTrigger(rule), |steps| < 2);
    var mid := Note(short, BadTrigger(rule), within == 0);
    ReportsTwice(errors, short, mid, BadTrigger(rule), |steps| < 2, within == 0);
    out := ValidateTriggers(steps, rule, depth + 1, hotkeys, true, mid);
    ReportsTwice(errors, mid, out, BadTrigger(rule), |steps| < 2 || within == 0, SomeBad(steps, depth + 1, hotkeys, true));
  }

  /** One of the items is not valid where it stands. */
  ghost predicate SomeBad(items: seq<TriggerSpec>, depth: nat, hotkeys: set<string>, inSequence: bool) {
    exists t | t in items :: (inSequence && t.Sequence?) || !TriggerValid(t, depth, hotkeys)
  }

  lemma SomeBadMore(items: seq<TriggerSpec>, last: TriggerSpec, depth: nat, hotkeys: set<string>, inSequence: bool)
    ensures SomeBad(items + [last], depth, hotkeys, inSequence) <==>
            SomeBad(items, depth, hotkeys, inSequence) || (inSequence && last.Sequence?) || !TriggerValid(last, depth, hotkeys)
  {
  }

  method ValidateTriggers(items: seq<TriggerSpec>, rule: string, depth: nat, hotkeys: set<string>, inSequence: bool,
                          errors: Errors)
    returns (out: Errors)
    ensures Reports(errors, out, BadTrigger(rule), SomeBad(items, depth, hotkeys, inSequence))
    decreases items, 0
  {
    out := errors;
    for i := 0 to |items|
      invariant Reports(errors, out, BadTrigger(rule), SomeBad(items[..i], depth, hotkeys, inSequence))
    {
      ghost var before, soFar := out, SomeBad(items[..i], depth, hotkeys, inSequence);
      var nested := Note(out, BadTrigger(rule), inSequence && items[i].Sequence?);
      ReportsTwice(errors, before, nested, BadTrigger(rule), soFar, inSequence && items[i].Sequence?);
      out := ValidateTrigger(items[i], rule, depth, hotkeys, nested);
      ReportsTwice(errors, nested, out, BadTrigger(rule), soFar || (inSequence && items[i].Sequence?),
                   !TriggerValid(items[i], depth, hotkeys));
      SomeBadMore(items[..i], items[i], depth, hotkeys, inSequence);
      assert items[..i + 1] == items[..i] + [items[i]];
    }
    assert items[..|items|] == items;
  }

  predicate ConditionValid(condition: ConditionSpec, depth: nat, host: Host)
    decreases condition
  {
    depth <= MAX_DEPTH &&
    match condition
    case All(conditions) => conditions != [] && forall c | c in conditions :: ConditionValid(c, depth + 1, host)
    case Any(conditions) => conditions != [] && forall c | c in conditions :: ConditionValid(c, depth + 1, host)
    case Not(inner) => ConditionValid(inner, depth + 1, host)
    case TimeWindow(start, end, _, _) => host.parseTime(start).Some? && host.parseTime(end).Some?
    case PathExists(path, _) => path.absolute
    case Mounted(path, _) => path.absolute
    case Power(_, Some(limit), _) => limit <= 100
    case SensorHealthy(sensor, _) => KnownSensor(sensor)
    case _ => true
  }

  predicate KnownSensor(sensor: string) {
    sensor in ["wifi", "network", "usb", "mounts", "processes", "services", "ports", "sessions", "power", "hotkeys",
               "filesystem", "integrity", "configuration", "binary", "polling", "time", "manual"]
  }

  method ValidateCondition(condition: ConditionSpec, rule: string, depth: nat, host: Host, errors: Errors)
    returns (out: Errors)
    ensures Reports(errors, out, BadCondition(rule), !ConditionValid(condition, depth, host))
    decreases condition, 1
  {
    out := errors;
    if depth > 16 {
      return out + [BadCondition(rule)];
    }
    match condition {
      case All(conditions) =>
        if conditions == [] { out := out + [BadCondition(rule)]; }
        out := ValidateConditions(conditions, rule, depth + 1, host, out);
      case Any(conditions) =>
        if conditions == [] { out := out + [BadCondition(rule)]; }
        out := ValidateConditions(conditions, rule, depth + 1, host, out);
      case Not(inner) => out := ValidateCondition(inner, rule, depth + 1, host, out);
      case TimeWindow(start, end, _, _) =>
        if host.parseTime(start).None? || host.parseTime(end).None? { out := out + [BadCondition(rule)]; }
      case PathExists(path, _) => if !path.absolute { out := out + [BadCondition(rule)]; }
      case Mounted(path, _) => if !path.absolute { out := out + [BadCondition(rule)]; }
      case Power(_, battery, _) => if battery.Some? && battery.value > 100 { out := out + [BadCondition(rule)]; }
      case SensorHealthy(sensor, _) =>
        var known := KnownSensor(sensor);
        if !known { out := out + [BadCondition(rule)]; }
      case _ =>
    }
  }

  method ValidateConditions(items: seq<ConditionSpec>, rule: string, depth: nat, host: Host, errors: Errors)
    returns (out: Errors)
    ensures Reports(errors, out, BadCondition(rule), !(forall c | c in items :: ConditionValid(c, depth, host)))
    decreases items, 0
  {
    out := errors;
    for i := 0 to |items|
      invariant Reports(errors, out, BadCondition(rule), !(forall k | 0 <= k < i :: ConditionValid(items[k], depth, host)))
    {
      out := ValidateCondition(items[i], rule, depth, host, out);
    }
  }

  // ---------------------------------------------------------------- actions

  predicate ActionValid(action: ActionSpec, daemon: DaemonConfig, vaults: set<string>, modes: set<string>) {
    match action
    case LockVault(vault) => vault in vaults
    case UnlockVault(vault) => vault in vaults
    case Unmount(path) => PathOf(path).absolute
    case InterfaceState(iface, _) => ValidInterfaceName(iface)
    case Service(name, _) => ValidUnitName(name)
    case TerminateProcess(process, _) => process in daemon.managedProcesses
    case CaptureEvidence(paths, destination) => PathOf(destination).absolute && forall p | p in paths :: PathOf(p).absolute
    case SetMode(mode) => mode in modes
    case Exec(executable, _, digest, environment) => ExecValid(executable, digest, environment, daemon)
    case _ => true
  }

  method ValidateAction(action: ActionSpec, rule: string, daemon: DaemonConfig, vaults: set<string>, modes: set<string>,
                        errors: Errors)
    returns (out: Errors)
    ensures Reports(errors, out, BadAction(rule), !ActionValid(action, daemon, vaults, modes))
  {
    out := errors;
    match action {
      case LockVault(vault) => out := Note(errors, BadAction(rule), vault !in vaults);
      case UnlockVault(vault) => out := Note(errors, BadAction(rule), vault !in vaults);
      case Unmount(path) => out := Note(errors, BadAction(rule), !PathOf(path).absolute);
      case InterfaceState(iface, _) => out := Note(errors, BadAction(rule), !ValidInterfaceName(iface));
      case Service(name, _) => out := Note(errors, BadAction(rule), !ValidUnitName(name));
      case TerminateProcess(process, _) => out := Note(errors, BadAction(rule), process !in daemon.managedProcesses);
      case CaptureEvidence(paths, destination) =>
        out := Note(errors, BadAction(rule), !PathOf(destination).absolute || exists p | p in paths :: !PathOf(p).absolute);
      case SetMode(mode) => out := Note(errors, BadAction(rule), mode !in modes);
      case Exec(executable, _, digest, environment) =>
        out := ValidateExec(executable, digest, environment, rule, daemon, errors);
      case _ =>
    }
  }

  predicate ExecValid(executable: Spelling, digest: Option<string>, environment: map<string, string>, daemon: DaemonConfig) {
    && PathOf(executable).absolute && PathOf(executable) in daemon.allowedExecutables
    && digest.Some? && ValidDigest(digest.value) && forall key | key in environment :: ValidVariable(key)
  }

  method ValidateExec(executable: Spelling, digest: Option<string>, environment: map<string, string>, rule: string,
                      daemon: DaemonConfig, errors: Errors)
    returns (out: Errors)
    ensures Reports(errors, out, BadAction(rule), !ExecValid(executable, digest, environment, daemon))
  {
    var unlisted := !PathOf(executable).absolute || PathOf(executable) !in daemon.allowedExecutables;
    var malformed := digest.Some? && !ValidDigest(digest.value);
    var unnamed := exists key | key in environment :: !ValidVariable(key);
    var one := Note(errors, BadAction(rule), unlisted);
    var two := Note(one, BadAction(rule), malformed);
    ReportsTwice(errors, one, two, BadAction(rule), unlisted, malformed);
    var three := Note(two, BadAction(rule), digest.None?);
    ReportsTwice(errors, two, three, BadAction(rule), unlisted || malformed, digest.None?);
    out := Note(three, BadAction(rule), unnamed);
    ReportsTwice(errors, three, out, BadAction(rule), unlisted || malformed || digest.None?, unnamed);
  }

  // ---------------------------------------------------------------- the whole configuration

  /** What the configuration is judged against besides itself: file texts and clocks. */
  datatype Surroundings = Surroundings(host: Host)

  function ModeNames(modes: seq<ModeConfig>): set<string> { set m | m in modes :: m.name }
  function VaultNames(vaults: seq<VaultConfig>): set<string> { set v | v in vaults :: v.name }
  function HotkeyNames(hotkeys: seq<HotkeyConfig>): set<string> { set h | h in hotkeys :: h.name }

  predicate DaemonValid(config: Config) {
    && config.version == 1 && config.daemon.socketPath.absolute && config.daemon.statePath.absolute
    && config.daemon.pollInterval > 0 && config.daemon.eventBuffer >= 16
    && forall p | p in config.daemon.allowedExecutables :: p.absolute
  }

  ghost predicate ModesValid(modes: seq<ModeConfig>) {
    && NamesValid(modes)
    && (forall i, j | 0 <= i < j < |modes| :: !(modes[i].initial && modes[j].initial))
  }

  predicate VaultValid(v: VaultConfig) {
    && ValidIdentifier(v.name) && v.path.absolute
    && (v.adapter.Gocryptfs? ==> && v.encryptedPath.Some? && v.encryptedPath.value.absolute
                                 && v.mountPath.Some? && v.mountPath.value.absolute)
    && (v.keyringDescription.Some? ==> ValidKeyring(v.keyringDescription.value))
  }

  ghost predicate VaultsValid(vaults: seq<VaultConfig>) {
    && (forall v | v in vaults :: VaultValid(v))
    && (forall i, j | 0 <= i < j < |vaults| :: vaults[i].name != vaults[j].name)
  }

  predicate HotkeyValid(h: HotkeyConfig) {
    && ValidIdentifier(h.name) && h.device.absolute && 1 <= |h.sequence| <= 32 && h.within > 0
    && forall key | key in h.sequence :: ValidKeyName(key)
  }

  ghost predicate HotkeysValid(hotkeys: seq<HotkeyConfig>) {
    && (forall h | h in hotkeys :: HotkeyValid(h))
    && (forall i, j | 0 <= i < j < |hotkeys| :: hotkeys[i].name != hotkeys[j].name)
  }

  predicate RuleValid(rule: Rule, config: Config, env: Surroundings) {
    && ValidIdentifier(rule.id) && rule.actions != []
    && TriggerValid(rule.trigger, 0, HotkeyNames(config.hotkeys))
    && (rule.when.Some? ==> ConditionValid(rule.when.value, 0, env.host))
    && forall a | a in rule.actions :: ActionValid(a, config.daemon, VaultNames(config.vaults), ModeNames(config.modes))
  }

  ghost predicate ConfigValid(config: Config, env: Surroundings) {
    && DaemonValid(config) && ModesValid(config.modes) && VaultsValid(config.vaults)
    && HotkeysValid(config.hotkeys) && UniqueIds(config.rules)
    && forall r | r in config.rules :: RuleValid(r, config, env)
  }

  // ---------------------------------------------------------------- which problem is reported

  /** A name that occurs twice. */
  ghost predicate Repeats(names: seq<string>, name: string) {
    exists i, j | 0 <= i < j < |names| :: names[i] == name && names[j] == name
  }

  lemma RepeatsMore(names: seq<string>, last: string)
    ensures forall name :: Repeats(names + [last], name) <==> Repeats(names, name) || (name == last && last in names)
  {
    var all := names + [last];
    forall name ensures Repeats(all, name) <==> Repeats(names, name) || (name == last && last in names) {
      if Repeats(names, name) {
        var i, j :| 0 <= i < j < |names| && names[i] == name && names[j] == name;
        assert all[i] == name && all[j] == name;
      }
      if last in names {
        var i :| 0 <= i < |names| && names[i] == last;
        assert all[i] == last && all[|names|] == last;
      }
    }
  }

  function ModeList(modes: seq<ModeConfig>): seq<string> { seq(|modes|, i requires 0 <= i < |modes| => modes[i].name) }
  function VaultList(vaults: seq<VaultConfig>): seq<string> { seq(|vaults|, i requires 0 <= i < |vaults| => vaults[i].name) }
  function HotkeyList(hotkeys: seq<HotkeyConfig>): seq<string> { seq(|hotkeys|, i requires 0 <= i < |hotkeys| => hotkeys[i].name) }
  function IdList(rules: seq<Rule>): seq<string> { seq(|rules|, i requires 0 <= i < |rules| => rules[i].id) }

  predicate DaemonDefect(config: Config, p: Problem) {
    match p
    case Version => config.version != 1
    case SocketPath => !config.daemon.socketPath.absolute
    case StatePath => !config.daemon.statePath.absolute
    case PollInterval => config.daemon.pollInterval == 0
    case EventBuffer => config.daemon.eventBuffer < 16
    case AllowedExecutable(path) => path in config.daemon.allowedExecutables && !path.absolute
    case _ => false
  }

  ghost predicate ModesDefect(modes: seq<ModeConfig>, p: Problem) {
    match p
    case ModeName(name) => name in ModeNames(modes) && !ValidIdentifier(name)
    case DuplicateMode(name) => Repeats(ModeList(modes), name)
    case _ => false
  }

  predicate VaultDefect(v: VaultConfig, p: Problem) {
    match p
    case VaultName(name) => name == v.name && !ValidIdentifier(name)
    case VaultPath(name) => name == v.name && !v.path.absolute
    case VaultPaths(name) =>
      name == v.name && v.adapter.Gocryptfs? &&
      !(v.encryptedPath.Some? && v.encryptedPath.value.absolute && v.mountPath.Some? && v.mountPath.value.absolute)
    case VaultKeyring(name) => name == v.name && v.keyringDescription.Some? && !ValidKeyring(v.keyringDescription.value)
    case _ => false
  }

  ghost predicate VaultsDefect(vaults: seq<VaultConfig>, p: Problem) {
    (exists v | v in vaults :: VaultDefect(v, p)) || (p.DuplicateVault? && Repeats(VaultList(vaults), p.name))
  }

  /** The first key of a sequence that is not a key. */
  function FirstBadKey(keys: seq<string>): Option<string> {
    if keys == [] then None else if !ValidKeyName(keys[0]) then Some(keys[0]) else FirstBadKey(keys[1..])
  }

  predicate HotkeyDefect(h: HotkeyConfig, p: Problem) {
    match p
    case HotkeyName(name) => name == h.name && !ValidIdentifier(name)
    case HotkeyDevice(name) => name == h.name && !h.device.absolute
    case HotkeyLength(name) => name == h.name && !(1 <= |h.sequence| <= 32)
    case HotkeyWindow(name) => name == h.name && h.within == 0
    case HotkeyKey(name, key) => name == h.name && FirstBadKey(h.sequence) == Some(key)
    case _ => false
  }

  ghost predicate HotkeysDefect(hotkeys: seq<HotkeyConfig>, p: Problem) {
    (exists h | h in hotkeys :: HotkeyDefect(h, p)) || (p.DuplicateHotkey? && Repeats(HotkeyList(hotkeys), p.name))
  }

  predicate RuleDefect(rule: Rule, config: Config, env: Surroundings, p: Problem) {
    match p
    case RuleId(name) => name == rule.id && !ValidIdentifier(name)
    case NoActions(name) => name == rule.id && rule.actions == []
    case BadTrigger(name) => name == rule.id && !TriggerValid(rule.trigger, 0, HotkeyNames(config.hotkeys))
    case BadCondition(name) => name == rule.id && rule.when.Some? && !ConditionValid(rule.when.value, 0, env.host)
    case BadAction(name) =>
      name == rule.id &&
      exists a | a in rule.actions :: !ActionValid(a, config.daemon, VaultNames(config.vaults), ModeNames(config.modes))
    case _ => false
  }

  ghost predicate RulesDefect(rules: seq<Rule>, config: Config, env: Surroundings, p: Problem) {
    (exists r | r in rules :: RuleDefect(r, config, env, p)) || (p.DuplicateRule? && Repeats(IdList(rules), p.name))
  }

  /** Everything that can be wrong with a configuration, problem by problem. */
  ghost predicate Defect(config: Config, env: Surroundings, p: Problem) {
    || DaemonDefect(config, p) || ModesDefect(config.modes, p)
    || (p.SeveralInitialModes? && InitialCount(config.modes) > 1)
    || VaultsDefect(config.vaults, p) || HotkeysDefect(config.hotkeys, p) || RulesDefect(config.rules, config, env, p)
  }

  // ---------------------------------------------------------------- section by section

  method ValidateDaemon(config: Config) returns (out: Errors)
    ensures out == [] <==> DaemonValid(config)
    ensures forall p :: p in out <==> DaemonDefect(config, p)
  {
    out := Note([], Version, config.version != 1);
    out := Note(out, SocketPath, !config.daemon.socketPath.absolute);
    out := Note(out, StatePath, !config.daemon.statePath.absolute);
    out := Note(out, PollInterval, config.daemon.pollInterval == 0);
    out := Note(out, EventBuffer, config.daemon.eventBuffer < 16);
    ghost var before := out;
    var allowed := config.daemon.allowedExecutables;
    for i := 0 to |allowed|
      invariant before <= out && (out == before <==> forall k | 0 <= k < i :: allowed[k].absolute)
      invariant forall p :: p in out <==>
                  p in before || (p.AllowedExecutable? && p.path in allowed[..i] && !p.path.absolute)
    {
      assert allowed[..i + 1] == allowed[..i] + [allowed[i]];
      if !allowed[i].absolute { out := out + [AllowedExecutable(allowed[i])]; }
    }
    assert allowed[..|allowed|] == allowed;
  }

  function InitialCount(modes: seq<ModeConfig>): nat {
    if modes == [] then 0
    else InitialCount(modes[..|modes| - 1]) + (if modes[|modes| - 1].initial then 1 else 0)
  }

  lemma {:induction false} OneInitial(modes: seq<ModeConfig>)
    ensures InitialCount(modes) == 0 <==> forall k | 0 <= k < |modes| :: !modes[k].initial
    ensures InitialCount(modes) <= 1 <==> forall j, k | 0 <= j < k < |modes| :: !(modes[j].initial && modes[k].initial)
  {
    if modes != [] {
      OneInitial(modes[..|modes| - 1]);
    }
  }

  lemma ModesDefectMore(modes: seq<ModeConfig>, mode: ModeConfig)
    ensures forall p :: ModesDefect(modes + [mode], p) <==>
              || ModesDefect(modes, p)
              || (p == ModeName(mode.name) && !ValidIdentifier(mode.name))
              || (p == DuplicateMode(mode.name) && mode.name in ModeNames(modes))
  {
    assert ModeList(modes + [mode]) == ModeList(modes) + [mode.name];
    RepeatsMore(ModeList(modes), mode.name);
    assert ModeNames(modes + [mode]) == ModeNames(modes) + {mode.name};
    assert forall name :: name in ModeNames(modes) <==> name in ModeList(modes) by {
      forall name | name in ModeNames(modes) ensures name in ModeList(modes) {
        var i :| 0 <= i < |modes| && modes[i].name == name;
        assert ModeList(modes)[i] == name;
      }
    }
  }

  method ValidateModes(modes: seq<ModeConfig>, errors: Errors) returns (names: set<string>, out: Errors)
    ensures errors <= out && (out == errors <==> ModesValid(modes))
    ensures forall p :: p in out <==>
              p in errors || ModesDefect(modes, p) || (p.SeveralInitialModes? && InitialCount(modes) > 1)
    ensures names == ModeNames(modes)
  {
    var initialModes;
    names, initialModes, out := ValidateModeNames(modes, errors);
    OneInitial(modes);
    if initialModes > 1 { out := out + [SeveralInitialModes]; }
  }

  /** The names of `modes` have been checked, starting from `errors`. */
  ghost predicate NamesChecked(errors: Errors, out: Errors, modes: seq<ModeConfig>) {
    && errors <= out && (out == errors <==> NamesValid(modes))
    && forall p :: p in out <==> p in errors || ModesDefect(modes, p)
  }

  lemma OneMoreName(errors: Errors, mid: Errors, out: Errors, modes: seq<ModeConfig>, mode: ModeConfig)
    requires NamesChecked(errors, mid, modes)
    requires mid <= out && (out == mid <==> ValidIdentifier(mode.name) && mode.name !in ModeNames(modes))
    requires forall p :: p in out <==>
               || p in mid || (!ValidIdentifier(mode.name) && p == ModeName(mode.name))
               || (mode.name in ModeNames(modes) && p == DuplicateMode(mode.name))
    ensures NamesChecked(errors, out, modes + [mode])
  {
    NamesExtend(modes, mode);
    ModesDefectMore(modes, mode);
  }

  /** The loop over the modes, before the initial ones are counted up. */
  method ValidateModeNames(modes: seq<ModeConfig>, errors: Errors) returns (names: set<string>, initialModes: nat, out: Errors)
    ensures NamesChecked(errors, out, modes)
    ensures names == ModeNames(modes) && initialModes == InitialCount(modes)
  {
    out, names, initialModes := errors, {}, 0;
    for i := 0 to |modes|
      invariant NamesChecked(errors, out, modes[..i])
      invariant names == ModeNames(modes[..i]) && initialModes == InitialCount(modes[..i])
    {
      assert modes[..i + 1] == modes[..i] + [modes[i]];
      ghost var mid := out;
      out := ValidateName(modes[i].name, modes[i].name in names, ModeName(modes[i].name), DuplicateMode(modes[i].name), out);
      OneMoreName(errors, mid, out, modes[..i], modes[i]);
      names := names + {modes[i].name};
      if modes[i].initial { initialModes := initialModes + 1; }
    }
    assert modes[..|modes|] == modes;
  }

  ghost predicate NamesValid(modes: seq<ModeConfig>) {
    && (forall m | m in modes :: ValidIdentifier(m.name))
    && (forall i, j | 0 <= i < j < |modes| :: modes[i].name != modes[j].name)
  }

  lemma NamesExtend(modes: seq<ModeConfig>, mode: ModeConfig)
    ensures NamesValid(modes + [mode]) <==>
            NamesValid(modes) && ValidIdentifier(mode.name) && mode.name !in ModeNames(modes)
  {
    var all := modes + [mode];
    assert forall i | 0 <= i < |modes| :: all[i] == modes[i];
    if NamesValid(all) {
      assert forall i | 0 <= i < |modes| :: all[i].name != all[|modes|].name;
    }
  }

  /** What is asked of every name: the right characters, and no earlier use. */
  method ValidateName(name: string, duplicate: bool, malformed: Problem, repeated: Problem, errors: Errors) returns (out: Errors)
    ensures errors <= out && (out == errors <==> ValidIdentifier(name) && !duplicate)
    ensures forall p :: p in out <==>
              p in errors || (!ValidIdentifier(name) && p == malformed) || (duplicate && p == repeated)
  {
    out := Note(errors, malformed, !ValidIdentifier(name));
    out := Note(out, repeated, duplicate);
  }

  method ValidateVault(vault: VaultConfig, duplicate: bool, errors: Errors) returns (out: Errors)
    ensures errors <= out && (out == errors <==> VaultValid(vault) && !duplicate)
    ensures forall p :: p in out <==>
              p in errors || VaultDefect(vault, p) || (duplicate && p == DuplicateVault(vault.name))
  {
    out := ValidateName(vault.name, duplicate, VaultName(vault.name), DuplicateVault(vault.name), errors);
    out := Note(out, VaultPath(vault.name), !vault.path.absolute);
    out := Note(out, VaultPaths(vault.name),
                vault.adapter.Gocryptfs? && (vault.encryptedPath.None? || !vault.encryptedPath.value.absolute ||
                                             vault.mountPath.None? || !vault.mountPath.value.absolute));
    out := Note(out, VaultKeyring(vault.name), vault.keyringDescription.Some? && !ValidKeyring(vault.keyringDescription.value));
  }

  lemma VaultsDefectMore(vaults: seq<VaultConfig>, vault: VaultConfig)
    ensures forall p :: VaultsDefect(vaults + [vault], p) <==>
              || VaultsDefect(vaults, p) || VaultDefect(vault, p)
              || (p == DuplicateVault(vault.name) && vault.name in VaultNames(vaults))
  {
    assert VaultList(vaults + [vault]) == VaultList(vaults) + [vault.name];
    RepeatsMore(VaultList(vaults), vault.name);
    assert vault.name in VaultNames(vaults) <==> vault.name in VaultList(vaults) by {
      if vault.name in VaultNames(vaults) {
        var i :| 0 <= i < |vaults| && vaults[i].name == vault.name;
        assert VaultList(vaults)[i] == vault.name;
      }
    }
  }

  lemma VaultsValidMore(vaults: seq<VaultConfig>, vault: VaultConfig)
    ensures VaultsValid(vaults + [vault]) <==> VaultsValid(vaults) && VaultValid(vault) && vault.name !in VaultNames(vaults)
  {
    var all := vaults + [vault];
    assert forall i | 0 <= i < |vaults| :: all[i] == vaults[i];
    if VaultsValid(all) {
      assert all[|vaults|] in all && forall v | v in vaults :: v in all;
      assert forall i | 0 <= i < |vaults| :: all[i].name != all[|vaults|].name;
    }
  }

  method ValidateVaults(vaults: seq<VaultConfig>, errors: Errors) returns (names: set<string>, out: Errors)
    ensures errors <= out && (out == errors <==> VaultsValid(vaults))
    ensures forall p :: p in out <==> p in errors || VaultsDefect(vaults, p)
    ensures names == VaultNames(vaults)
  {
    out, names := errors, {};
    for i := 0 to |vaults|
      invariant errors <= out && names == VaultNames(vaults[..i])
      invariant out == errors <==> VaultsValid(vaults[..i])
      invariant forall p :: p in out <==> p in errors || VaultsDefect(vaults[..i], p)
    {
      assert vaults[..i + 1] == vaults[..i] + [vaults[i]];
      VaultsDefectMore(vaults[..i], vaults[i]);
      VaultsValidMore(vaults[..i], vaults[i]);
      out := ValidateVault(vaults[i], vaults[i].name in names, out);
      names := names + {vaults[i].name};
    }
    assert vaults[..|vaults|] == vaults;
  }

  lemma {:induction false} FirstBadKeyExact(keys: seq<string>)
    ensures FirstBadKey(keys).None? <==> forall key | key in keys :: ValidKeyName(key)
  {
    if keys != [] {
      FirstBadKeyExact(keys[1..]);
      assert keys[0] in keys && forall key | key in keys :: key == keys[0] || key in keys[1..];
    }
  }

  /** `Iterator::find` over the keys. */
  method FindBadKey(keys: seq<string>) returns (bad: Option<string>)
    ensures bad == FirstBadKey(keys)
  {
    for i := 0 to |keys|
      invariant FirstBadKey(keys) == FirstBadKey(keys[i..])
    {
      if !ValidKeyName(keys[i]) {
        return Some(keys[i]);
      }
      assert keys[i..][1..] == keys[i + 1..];
    }
    bad := None;
  }

  method ValidateHotkey(hotkey: HotkeyConfig, duplicate: bool, errors: Errors) returns (out: Errors)
    ensures errors <= out && (out == errors <==> HotkeyValid(hotkey) && !duplicate)
    ensures forall p :: p in out <==>
              p in errors || HotkeyDefect(hotkey, p) || (duplicate && p == DuplicateHotkey(hotkey.name))
  {
    out := ValidateName(hotkey.name, duplicate, HotkeyName(hotkey.name), DuplicateHotkey(hotkey.name), errors);
    out := Note(out, HotkeyDevice(hotkey.name), !hotkey.device.absolute);
    out := ValidateKeys(hotkey, out);
  }

  /** The sequence of a hotkey: its length, its window and its key names. */
  method ValidateKeys(hotkey: HotkeyConfig, errors: Errors) returns (out: Errors)
    ensures errors <= out
    ensures out == errors <==> 1 <= |hotkey.sequence| <= 32 && hotkey.within > 0 && forall key | key in hotkey.sequence :: ValidKeyName(key)
    ensures forall p :: p in out <==>
              || p in errors || (!(1 <= |hotkey.sequence| <= 32) && p == HotkeyLength(hotkey.name))
              || (hotkey.within == 0 && p == HotkeyWindow(hotkey.name))
              || (p.HotkeyKey? && p.name == hotkey.name && FirstBadKey(hotkey.sequence) == Some(p.key))
  {
    out := Note(errors, HotkeyLength(hotkey.name), hotkey.sequence == [] || |hotkey.sequence| > 32);
    out := Note(out, HotkeyWindow(hotkey.name), hotkey.within == 0);
    var bad := FindBadKey(hotkey.sequence);
    FirstBadKeyExact(hotkey.sequence);
    if bad.Some? { out := out + [HotkeyKey(hotkey.name, bad.value)]; }
  }

  lemma HotkeysDefectMore(hotkeys: seq<HotkeyConfig>, hotkey: HotkeyConfig)
    ensures forall p :: HotkeysDefect(hotkeys + [hotkey], p) <==>
              || HotkeysDefect(hotkeys, p) || HotkeyDefect(hotkey, p)
              || (p == DuplicateHotkey(hotkey.name) && hotkey.name in HotkeyNames(hotkeys))
  {
    assert HotkeyList(hotkeys + [hotkey]) == HotkeyList(hotkeys) + [hotkey.name];
    RepeatsMore(HotkeyList(hotkeys), hotkey.name);
    assert hotkey.name in HotkeyNames(hotkeys) <==> hotkey.name in HotkeyList(hotkeys) by {
      if hotkey.name in HotkeyNames(hotkeys) {
        var i :| 0 <= i < |hotkeys| && hotkeys[i].name == hotkey.name;
        assert HotkeyList(hotkeys)[i] == hotkey.name;
      }
    }
  }

  lemma HotkeysValidMore(hotkeys: seq<HotkeyConfig>, hotkey: HotkeyConfig)
    ensures HotkeysValid(hotkeys + [hotkey]) <==>
            HotkeysValid(hotkeys) && HotkeyValid(hotkey) && hotkey.name !in HotkeyNames(hotkeys)
  {
    var all := hotkeys + [hotkey];
    assert forall i | 0 <= i < |hotkeys| :: all[i] == hotkeys[i];
    if HotkeysValid(all) {
      assert all[|hotkeys|] in all && forall h | h in hotkeys :: h in all;
      assert forall i | 0 <= i < |hotkeys| :: all[i].name != all[|hotkeys|].name;
    }
  }

  method ValidateHotkeys(hotkeys: seq<HotkeyConfig>, errors: Errors) returns (names: set<string>, out: Errors)
    ensures errors <= out && (out == errors <==> HotkeysValid(hotkeys))
    ensures forall p :: p in out <==> p in errors || HotkeysDefect(hotkeys, p)
    ensures names == HotkeyNames(hotkeys)
  {
    out, names := errors, {};
    for i := 0 to |hotkeys|
      invariant errors <= out && names == HotkeyNames(hotkeys[..i])
      invariant out == errors <==> HotkeysValid(hotkeys[..i])
      invariant forall p :: p in out <==> p in errors || HotkeysDefect(hotkeys[..i], p)
    {
      assert hotkeys[..i + 1] == hotkeys[..i] + [hotkeys[i]];
      HotkeysDefectMore(hotkeys[..i], hotkeys[i]);
      HotkeysValidMore(hotkeys[..i], hotkeys[i]);
      out := ValidateHotkey(hotkeys[i], hotkeys[i].name in names, out);
      names := names + {hotkeys[i].name};
    }
    assert hotkeys[..|hotkeys|] == hotkeys;
  }

  method ValidateActions(rule: Rule, daemon: DaemonConfig, vaults: set<string>, modes: set<string>, errors: Errors)
    returns (out: Errors)
    ensures Reports(errors, out, BadAction(rule.id), exists a | a in rule.actions :: !ActionValid(a, daemon, vaults, modes))
  {
    out := errors;
    for i := 0 to |rule.actions|
      invariant Reports(errors, out, BadAction(rule.id),
                        !(forall k | 0 <= k < i :: ActionValid(rule.actions[k], daemon, vaults, modes)))
    {
      out := ValidateAction(rule.actions[i], rule.id, daemon, vaults, modes, out);
    }
  }

  /** What is asked of a rule before its parts. */
  method ValidateHead(rule: Rule, duplicate: bool, errors: Errors) returns (out: Errors)
    ensures errors <= out && (out == errors <==> ValidIdentifier(rule.id) && !duplicate && rule.actions != [])
    ensures forall p :: p in out <==>
              || p in errors || (!ValidIdentifier(rule.id) && p == RuleId(rule.id))
              || (duplicate && p == DuplicateRule(rule.id)) || (rule.actions == [] && p == NoActions(rule.id))
  {
    out := ValidateName(rule.id, duplicate, RuleId(rule.id), DuplicateRule(rule.id), errors);
    out := Note(out, NoActions(rule.id), rule.actions == []);
  }

  method ValidateParts(rule: Rule, config: Config, env: Surroundings, hotkeys: set<string>, vaults: set<string>,
                       modes: set<string>, errors: Errors)
    returns (out: Errors)
    ensures errors <= out
    ensures out == errors <==> && TriggerValid(rule.trigger, 0, hotkeys)
                               && (rule.when.Some? ==> ConditionValid(rule.when.value, 0, env.host))
                               && forall a | a in rule.actions :: ActionValid(a, config.daemon, vaults, modes)
    ensures forall p :: p in out <==>
              || p in errors || (!TriggerValid(rule.trigger, 0, hotkeys) && p == BadTrigger(rule.id))
              || (rule.when.Some? && !ConditionValid(rule.when.value, 0, env.host) && p == BadCondition(rule.id))
              || ((exists a | a in rule.actions :: !ActionValid(a, config.daemon, vaults, modes)) && p == BadAction(rule.id))
  {
    out := ValidateTrigger(rule.trigger, rule.id, 0, hotkeys, errors);
    ReportedExactly(errors, out, BadTrigger(rule.id), !TriggerValid(rule.trigger, 0, hotkeys));
    ghost var before := out;
    if rule.when.Some? {
      out := ValidateCondition(rule.when.value, rule.id, 0, env.host, out);
      ReportedExactly(before, out, BadCondition(rule.id), !ConditionValid(rule.when.value, 0, env.host));
    }
    before := out;
    out := ValidateActions(rule, config.daemon, vaults, modes, out);
    ReportedExactly(before, out, BadAction(rule.id), exists a | a in rule.actions :: !ActionValid(a, config.daemon, vaults, modes));
  }

  method ValidateRule(rule: Rule, duplicate: bool, config: Config, env: Surroundings, hotkeys: set<string>,
                      vaults: set<string>, modes: set<string>, errors: Errors)
    returns (out: Errors)
    requires hotkeys == HotkeyNames(config.hotkeys) && vaults == VaultNames(config.vaults)
    requires modes == ModeNames(config.modes)
    ensures errors <= out && (out == errors <==> RuleValid(rule, config, env) && !duplicate)
    ensures forall p :: p in out <==>
              p in errors || RuleDefect(rule, config, env, p) || (duplicate && p == DuplicateRule(rule.id))
  {
    out := ValidateHead(rule, duplicate, errors);
    out := ValidateParts(rule, config, env, hotkeys, vaults, modes, out);
  }

  /** Errors are reported exactly when the configuration is not valid, and they are exactly its defects. */
  method ValidateConfig(config: Config, env: Surroundings) returns (out: Errors)
    ensures out == [] <==> ConfigValid(config, env)
    ensures forall p :: p in out <==> Defect(config, env, p)
  {
    out := ValidateDaemon(config);
    var modes, vaults, hotkeys;
    modes, out := ValidateModes(config.modes, out);
    vaults, out := ValidateVaults(config.vaults, out);
    hotkeys, out := ValidateHotkeys(config.hotkeys, out);
    ghost var before := out;
    assert before == [] <==> && DaemonValid(config) && ModesValid(config.modes) && VaultsValid(config.vaults)
                             && HotkeysValid(config.hotkeys);
    out := ValidateRules(config, env, hotkeys, vaults, modes, out);
  }

  ghost predicate RulesValid(rules: seq<Rule>, config: Config, env: Surroundings) {
    UniqueIds(rules) && forall r | r in rules :: RuleValid(r, config, env)
  }

  lemma RulesDefectMore(rules: seq<Rule>, rule: Rule, config: Config, env: Surroundings)
    ensures forall p :: RulesDefect(rules + [rule], config, env, p) <==>
              || RulesDefect(rules, config, env, p) || RuleDefect(rule, config, env, p)
              || (p == DuplicateRule(rule.id) && rule.id in IdList(rules))
  {
    assert IdList(rules + [rule]) == IdList(rules) + [rule.id];
    RepeatsMore(IdList(rules), rule.id);
  }

  lemma RulesValidMore(rules: seq<Rule>, rule: Rule, config: Config, env: Surroundings)
    ensures RulesValid(rules + [rule], config, env) <==>
            RulesValid(rules, config, env) && RuleValid(rule, config, env) && rule.id !in IdList(rules)
  {
    var all := rules + [rule];
    assert forall i | 0 <= i < |rules| :: all[i] == rules[i];
    if RulesValid(all, config, env) {
      assert all[|rules|] in all && forall r | r in rules :: r in all;
      assert forall i | 0 <= i < |rules| :: all[i].id != all[|rules|].id;
    }
    if rule.id !in IdList(rules) {
      assert forall i | 0 <= i < |rules| :: IdList(rules)[i] == rules[i].id;
    }
  }

  method ValidateRules(config: Config, env: Surroundings, hotkeys: set<string>, vaults: set<string>,
                       modes: set<string>, errors: Errors)
    returns (out: Errors)
    requires hotkeys == HotkeyNames(config.hotkeys) && vaults == VaultNames(config.vaults)
    requires modes == ModeNames(config.modes)
    ensures errors <= out
    ensures out == errors <==> UniqueIds(config.rules) && forall r | r in config.rules :: RuleValid(r, config, env)
    ensures forall p :: p in out <==> p in errors || RulesDefect(config.rules, config, env, p)
  {
    out := errors;
    var ids: set<string> := {};
    var rules := config.rules;
    for i := 0 to |rules|
      invariant errors <= out && (forall id :: id in ids <==> id in IdList(rules[..i]))
      invariant out == errors <==> RulesValid(rules[..i], config, env)
      invariant forall p :: p in out <==> p in errors || RulesDefect(rules[..i], config, env, p)
    {
      assert rules[..i + 1] == rules[..i] + [rules[i]];
      assert IdList(rules[..i + 1]) == IdList(rules[..i]) + [rules[i].id];
      RulesDefectMore(rules[..i], rules[i], config, env);
      RulesValidMore(rules[..i], rules[i], config, env);
      out := ValidateRule(rules[i], rules[i].id in ids, config, env, hotkeys, vaults, modes, out);
      ids := ids + {rules[i].id};
    }
    assert rules[..|rules|] == rules;
  }

  // ---------------------------------------------------------------- what validity means

  /** The number of levels below the top of a trigger. */
  function Height(trigger: TriggerSpec): nat
    decreases trigger, 1
  {
    match trigger
    case All(triggers) => HeightOfAll(triggers)
    case Any(triggers) => HeightOfAll(triggers)
    case Sequence(steps, _) => HeightOfAll(steps)
    case Not(inner) => 1 + Height(inner)
    case _ => 0
  }

  function HeightOfAll(triggers: seq<TriggerSpec>): nat
    decreases triggers, 0
  {
    if triggers == [] then 0
    else
      var rest, here := HeightOfAll(triggers[1..]), 1 + Height(triggers[0]);
      if rest > here then rest else here
  }

  lemma {:induction false} HeightBounds(triggers: seq<TriggerSpec>, bound: nat)
    ensures HeightOfAll(triggers) <= bound <==> forall t | t in triggers :: 1 + Height(t) <= bound
    decreases triggers
  {
    if triggers != [] {
      HeightBounds(triggers[1..], bound);
      var here, rest := 1 + Height(triggers[0]), HeightOfAll(triggers[1..]);
      assert HeightOfAll(triggers) == if rest > here then rest else here;
      forall t | t in triggers ensures t == triggers[0] || t in triggers[1..] {}
      if forall t | t in triggers :: 1 + Height(t) <= bound {
        assert triggers[0] in triggers;
        assert forall t | t in triggers[1..] :: t in triggers;
      }
    }
  }

  /** What is asked of a trigger apart from its depth. */
  predicate ShapeValid(trigger: TriggerSpec, hotkeys: set<string>) {
    match trigger
    case File(path, _, _) => path.absolute
    case Power(_, Some(limit), _) => limit <= 100
    case Process(name, _) => name.Some?
    case Service(name, _) => name.Some?
    case Port(port, _, _) => port.Some?
    case Hotkey(name) => name in hotkeys
    case All(triggers) => triggers != [] && forall t | t in triggers :: ShapeValid(t, hotkeys)
    case Any(triggers) => triggers != [] && forall t | t in triggers :: ShapeValid(t, hotkeys)
    case Not(inner) => ShapeValid(inner, hotkeys)
    case Sequence(steps, within) =>
      && |steps| >= 2 && within > 0
      && (forall t | t in steps :: !t.Sequence?) && (forall t | t in steps :: ShapeValid(t, hotkeys))
    case _ => true
  }

  /** The depth-counting recursion accepts exactly the well-shaped triggers of at most sixteen levels. */
  lemma {:induction false} DepthLimitExact(trigger: TriggerSpec, depth: nat, hotkeys: set<string>)
    ensures TriggerValid(trigger, depth, hotkeys) <==> depth + Height(trigger) <= 16 && ShapeValid(trigger, hotkeys)
    decreases trigger
  {
    match trigger
    case All(triggers) => ChildrenLimitExact(triggers, depth, hotkeys, trigger);
    case Any(triggers) => ChildrenLimitExact(triggers, depth, hotkeys, trigger);
    case Sequence(steps, _) => ChildrenLimitExact(steps, depth, hotkeys, trigger);
    case Not(inner) => DepthLimitExact(inner, depth + 1, hotkeys);
    case _ =>
  }

  lemma {:induction false} ChildrenLimitExact(triggers: seq<TriggerSpec>, depth: nat, hotkeys: set<string>, parent: TriggerSpec)
    requires forall t | t in triggers :: t < parent
    ensures (forall t | t in triggers :: TriggerValid(t, depth + 1, hotkeys)) && depth <= MAX_DEPTH <==>
            && depth + HeightOfAll(triggers) <= MAX_DEPTH
            && forall t | t in triggers :: ShapeValid(t, hotkeys)
    decreases parent, 0
  {
    forall t | t in triggers { DepthLimitExact(t, depth + 1, hotkeys); }
    if depth <= MAX_DEPTH {
      HeightBounds(triggers, MAX_DEPTH - depth);
    }
  }

  /** Valid triggers meet what matching and sensor collection rely on. */
  lemma {:induction false} ValidTriggersAreUsable(trigger: TriggerSpec, depth: nat, hotkeys: set<string>)
    requires TriggerValid(trigger, depth, hotkeys)
    ensures NoEmptyComposite(trigger) && NamesTargets(trigger)
    ensures trigger.Sequence? ==> |trigger.steps| >= 2
    decreases trigger
  {
    match trigger
    case All(triggers) => forall t | t in triggers { ValidTriggersAreUsable(t, depth + 1, hotkeys); }
    case Any(triggers) => forall t | t in triggers { ValidTriggersAreUsable(t, depth + 1, hotkeys); }
    case Sequence(steps, _) => forall t | t in steps { ValidTriggersAreUsable(t, depth + 1, hotkeys); }
    case Not(inner) => ValidTriggersAreUsable(inner, depth + 1, hotkeys);
    case _ =>
  }

  // ---------------------------------------------------------------- names and limits, written out

  /** Letters, digits, underscore, dot and hyphen, by their codes. */
  predicate IdentifierCode(c: int) {
    48 <= c <= 57 || 65 <= c <= 90 || 97 <= c <= 122 || c == 95 || c == 46 || c == 45
  }

  lemma IdentifierExact(s: string)
    ensures ValidIdentifier(s) <==> |s| > 0 && forall i | 0 <= i < |s| :: IdentifierCode(s[i] as int)
  {
    if ValidIdentifier(s) {
      forall i | 0 <= i < |s| ensures IdentifierCode(s[i] as int) {
        assert s[i] in s;
      }
    }
  }

  /** An interface name may besides hold a colon, and has at most fifteen characters. */
  lemma InterfaceNameExact(s: string)
    ensures ValidInterfaceName(s) <==> 0 < |s| <= 15 && forall i | 0 <= i < |s| :: IdentifierCode(s[i] as int) || s[i] as int == 58
  {
    if ValidInterfaceName(s) {
      forall i | 0 <= i < |s| ensures IdentifierCode(s[i] as int) || s[i] as int == 58 {
        assert s[i] in s;
      }
    }
  }

  /** A unit name may besides hold an at sign, and has at most 255 characters. */
  lemma UnitNameExact(s: string)
    ensures ValidUnitName(s) <==> 0 < |s| <= 255 && forall i | 0 <= i < |s| :: IdentifierCode(s[i] as int) || s[i] as int == 64
  {
    if ValidUnitName(s) {
      forall i | 0 <= i < |s| ensures IdentifierCode(s[i] as int) || s[i] as int == 64 {
        assert s[i] in s;
      }
    }
  }

  /** A digest is 64 hexadecimal digits; a variable is written in capitals, digits and underscores, by their codes. */
  lemma DigestAndVariableExact(s: string)
    ensures ValidDigest(s) <==>
            |s| == 64 && forall i | 0 <= i < |s| :: var c := s[i] as int; 48 <= c <= 57 || 65 <= c <= 70 || 97 <= c <= 102
    ensures ValidVariable(s) <==> forall i | 0 <= i < |s| :: var c := s[i] as int; 48 <= c <= 57 || 65 <= c <= 90 || c == 95
  {
    assert forall i | 0 <= i < |s| :: s[i] in s;
  }

  /** The number of levels below the top of a condition. */
  function ConditionHeight(condition: ConditionSpec): nat
    decreases condition, 1
  {
    match condition
    case All(conditions) => ConditionHeights(conditions)
    case Any(conditions) => ConditionHeights(conditions)
    case Not(inner) => 1 + ConditionHeight(inner)
    case _ => 0
  }

  function ConditionHeights(conditions: seq<ConditionSpec>): nat
    decreases conditions, 0
  {
    if conditions == [] then 0
    else
      var rest, here := ConditionHeights(conditions[1..]), 1 + ConditionHeight(conditions[0]);
      if rest > here then rest else here
  }

  /** What is asked of a condition apart from its depth. */
  predicate ConditionShapeValid(condition: ConditionSpec, host: Host) {
    match condition
    case All(conditions) => |conditions| > 0 && forall c | c in conditions :: ConditionShapeValid(c, host)
    case Any(conditions) => |conditions| > 0 && forall c | c in conditions :: ConditionShapeValid(c, host)
    case Not(inner) => ConditionShapeValid(inner, host)
    case TimeWindow(start, end, _, _) => !(host.parseTime(start).None? || host.parseTime(end).None?)
    case PathExists(path, _) => path.absolute
    case Mounted(path, _) => path.absolute
    case Power(_, battery, _) => battery.Some? ==> battery.value <= 100
    case SensorHealthy(sensor, _) => KnownSensor(sensor)
    case _ => true
  }

  lemma {:induction false} ConditionHeightBounds(conditions: seq<ConditionSpec>, bound: nat)
    ensures ConditionHeights(conditions) <= bound <==> forall c | c in conditions :: 1 + ConditionHeight(c) <= bound
    decreases conditions
  {
    if conditions != [] {
      ConditionHeightBounds(conditions[1..], bound);
      var here, rest := 1 + ConditionHeight(conditions[0]), ConditionHeights(conditions[1..]);
      assert ConditionHeights(conditions) == if rest > here then rest else here;
      forall c | c in conditions ensures c == conditions[0] || c in conditions[1..] {}
      if forall c | c in conditions :: 1 + ConditionHeight(c) <= bound {
        assert conditions[0] in conditions;
        assert forall c | c in conditions[1..] :: c in conditions;
      }
    }
  }

  /** The recursion accepts exactly the well-shaped conditions of at most sixteen levels. */
  lemma {:induction false} ConditionDepthExact(condition: ConditionSpec, depth: nat, host: Host)
    ensures ConditionValid(condition, depth, host) <==>
            depth + ConditionHeight(condition) <= 16 && ConditionShapeValid(condition, host)
    decreases condition
  {
    match condition
    case All(conditions) => ConditionChildrenExact(conditions, depth, host, condition);
    case Any(conditions) => ConditionChildrenExact(conditions, depth, host, condition);
    case Not(inner) => ConditionDepthExact(inner, depth + 1, host);
    case _ =>
  }

  lemma {:induction false} ConditionChildrenExact(conditions: seq<ConditionSpec>, depth: nat, host: Host, parent: ConditionSpec)
    requires forall c | c in conditions :: c < parent
    ensures (forall c | c in conditions :: ConditionValid(c, depth + 1, host)) && depth <= 16 <==>
            && depth + ConditionHeights(conditions) <= 16
            && forall c | c in conditions :: ConditionShapeValid(c, host)
    decreases parent, 0
  {
    forall c | c in conditions { ConditionDepthExact(c, depth + 1, host); }
    if depth <= 16 {
      ConditionHeightBounds(conditions, 16 - depth);
    }
  }

  /** The numeric limits of a valid configuration. */
  lemma LimitsOfValid(config: Config, env: Surroundings)
    requires ConfigValid(config, env)
    ensures config.version == 1 && config.daemon.pollInterval > 0 && config.daemon.eventBuffer >= 16
    ensures forall h | h in config.hotkeys :: 1 <= |h.sequence| <= 32 && h.within > 0
    ensures forall v | v in config.vaults && v.keyringDescription.Some? :: 0 < |Utf8(v.keyringDescription.value)| <= 128
    ensures forall r | r in config.rules :: |r.actions| > 0 && Height(r.trigger) <= 16
  {
    forall h | h in config.hotkeys ensures 1 <= |h.sequence| <= 32 && h.within > 0 {
      assert HotkeyValid(h);
    }
    forall v | v in config.vaults && v.keyringDescription.Some? ensures 0 < |Utf8(v.keyringDescription.value)| <= 128 {
      assert VaultValid(v);
      assert |CharBytes(v.keyringDescription.value[0])| > 0;
    }
    forall r | r in config.rules ensures |r.actions| > 0 && Height(r.trigger) <= 16 {
      assert RuleValid(r, config, env);
      DepthLimitExact(r.trigger, 0, HotkeyNames(config.hotkeys));
    }
  }
}
