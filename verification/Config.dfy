/** The policy language: rules, triggers, conditions and actions, with the conflict key of an action. */
module Config {
  import opened Options

  type u8 = x: int | 0 <= x < 0x100
  type u16 = x: int | 0 <= x < 0x1_0000

  /** One path component; the separator cannot occur inside it. */
  type Component = s: string | s != "" && '/' !in s witness "a"

  /** A path up to Rust's own path equality, which compares components. */
  datatype Path = Path(absolute: bool, components: seq<Component>) {
    predicate StartsWith(base: Path) {
      absolute == base.absolute && base.components <= components
    }
  }

  /** A path as it is written in the configuration; nothing normalizes it. */
  type Spelling = string

  /** The pieces between separators, empty ones included. */
  function Pieces(text: Spelling): (pieces: seq<string>)
    ensures pieces != [] && forall i | 0 <= i < |pieces| :: '/' !in pieces[i]
  {
    if text == "" then [""]
    else if text[0] == '/' then [""] + Pieces(text[1..])
    else Prefixed(text[0], Pieces(text[1..]))
  }

  function Prefixed(c: char, pieces: seq<string>): seq<string>
    requires pieces != []
  {
    [[c] + pieces[0]] + pieces[1..]
  }

  /** Empty pieces and dots say nothing, wherever they stand. */
  function Meaningful(pieces: seq<string>): (components: seq<Component>)
    requires forall i | 0 <= i < |pieces| :: '/' !in pieces[i]
  {
    if pieces == [] then []
    else
      var front, last := Meaningful(pieces[..|pieces| - 1]), pieces[|pieces| - 1];
      if last == "" || last == "." then front else front + [last]
  }

  /** The path a spelling stands for. Only a dot at the very start of a relative spelling is a component. */
  function PathOf(text: Spelling): Path {
    var pieces := Pieces(text);
    Path(text != "" && text[0] == '/', (if pieces[0] == "." then ["."] else []) + Meaningful(pieces))
  }

  datatype FileOperation = Create | Modify | Rename | Delete | Access | Metadata | Other
  datatype DeviceAction = Added | Removed | Changed
  datatype NetworkProtocol = Tcp | Udp
  datatype SessionState = LoggedIn | LoggedOut | Locked | Unlocked
  datatype Weekday = Mon | Tue | Wed | Thu | Fri | Sat | Sun
  datatype SensorFailurePolicy = Alert | Ignore | FailClosed
  datatype ServiceAction = Start | Stop | Restart
  datatype ProcessSignal = Term | Kill | Hup | Int
  datatype NotificationUrgency = Low | Normal | Critical
  datatype VaultAdapter = Fscrypt | Gocryptfs

  datatype TriggerSpec =
    | Tick
    | File(path: Path, operations: seq<FileOperation>, recursive: bool)
    | WifiChanged(ssid: Option<string>, bssid: Option<string>, connected: Option<bool>)
    | NetworkChanged(iface: Option<string>, online: Option<bool>, vpn: Option<bool>)
    | Usb(device: Option<DeviceAction>, vendorId: Option<string>, productId: Option<string>, serial: Option<string>)
    | Mount(device: Option<DeviceAction>, mountPath: Option<Path>)
    | Process(name: Option<string>, running: Option<bool>)
    | Service(name: Option<string>, active: Option<bool>)
    | Port(port: Option<u16>, open: Option<bool>, protocol: Option<NetworkProtocol>)
    | Session(state: Option<SessionState>, user: Option<string>, remote: Option<bool>)
    | Power(onAc: Option<bool>, batteryBelow: Option<u8>, lidClosed: Option<bool>)
    | Hotkey(hotkey: string)
    | IntegrityFailure(component: Option<string>)
    | Manual(manual: string)
    | SensorFailure(sensor: Option<string>)
    | All(triggers: seq<TriggerSpec>)
    | Any(triggers: seq<TriggerSpec>)
    | Not(trigger: TriggerSpec)
    | Sequence(steps: seq<TriggerSpec>, within: nat)

  datatype ConditionSpec =
    | All(conditions: seq<ConditionSpec>)
    | Any(conditions: seq<ConditionSpec>)
    | Not(condition: ConditionSpec)
    | TimeWindow(start: string, end: string, outside: bool, weekdays: seq<Weekday>)
    | Wifi(ssid: Option<string>, bssid: Option<string>, connected: Option<bool>)
    | Network(online: Option<bool>, iface: Option<string>, vpn: Option<bool>)
    | Mode(mode: string)
    | PathExists(path: Path, present: bool)
    | Mounted(path: Path, mounted: bool)
    | Process(name: string, running: bool)
    | Service(name: string, active: bool)
    | Port(port: u16, open: bool, protocol: NetworkProtocol)
    | Session(state: Option<SessionState>, user: Option<string>, remote: Option<bool>)
    | Power(onAc: Option<bool>, batteryBelow: Option<u8>, lidClosed: Option<bool>)
    | SensorHealthy(sensor: string, healthy: bool)

  datatype ActionSpec =
    | LockVault(vault: string)
    | UnlockVault(vault: string)
    | Unmount(path: Spelling)
    | NetworkIsolation(enabled: bool)
    | InterfaceState(iface: string, up: bool)
    | Service(name: string, transition: ServiceAction)
    | TerminateProcess(process: string, signal: ProcessSignal)
    | Notify(title: string, message: string, urgency: NotificationUrgency)
    | CaptureEvidence(paths: seq<Spelling>, destination: Spelling)
    | SetMode(mode: string)
    | Exec(executable: Spelling, args: seq<string>, expectedSha256: Option<string>, environment: map<string, string>)

  /** Durations are nanosecond counts. */
  datatype Rule = Rule(
    id: string, enabled: bool, priority: int, cooldown: nat, sustainFor: nat, oncePerBoot: bool,
    onSensorFailure: SensorFailurePolicy, trigger: TriggerSpec, when: Option<ConditionSpec>, actions: seq<ActionSpec>)

  datatype DaemonConfig = DaemonConfig(
    socketPath: Path, statePath: Path, dryRun: bool, pollInterval: nat, eventBuffer: nat,
    allowedExecutables: seq<Path>, managedProcesses: seq<string>)

  datatype ModeConfig = ModeConfig(name: string, initial: bool)
  datatype VaultConfig = VaultConfig(
    name: string, adapter: VaultAdapter, path: Path, encryptedPath: Option<Path>, mountPath: Option<Path>,
    keyringDescription: Option<string>)
  datatype HotkeyConfig = HotkeyConfig(name: string, device: Path, sequence: seq<string>, within: nat)

  datatype Config = Config(
    version: nat, daemon: DaemonConfig, maxRecords: nat, modes: seq<ModeConfig>, vaults: seq<VaultConfig>,
    hotkeys: seq<HotkeyConfig>, rules: seq<Rule>)

  ghost predicate UniqueIds(rules: seq<Rule>) {
    forall i, j | 0 <= i < j < |rules| :: rules[i].id != rules[j].id
  }

  // ---------------------------------------------------------------- conflict keys

  /** The text that makes two actions of one evaluation cycle exclude each other. */
  function ConflictKey(action: ActionSpec): Option<string> {
    match action
    case LockVault(vault) => Some("vault:" + vault)
    case UnlockVault(vault) => Some("vault:" + vault)
    case NetworkIsolation(_) => Some("network:isolation")
    case InterfaceState(iface, _) => Some("interface:" + iface)
    case Service(name, _) => Some("service:" + name)
    case SetMode(_) => Some("mode")
    case Unmount(path) => Some("mount:" + path)
    case TerminateProcess(process, _) => Some("process:" + process)
    case Notify(_, _, _) => None
    case CaptureEvidence(_, _) => None
    case Exec(_, _, _, _) => None
  }

  /** What an action acts upon, independent of how its key is spelled. */
  datatype Resource = Vault(name: string) | Networking | Interface(name: string) | Unit(name: string)
                    | SecurityMode | MountPoint(path: Path) | ProcessName(name: string)

  function ResourceOf(action: ActionSpec): Option<Resource> {
    match action
    case LockVault(vault) => Some(Vault(vault))
    case UnlockVault(vault) => Some(Vault(vault))
    case NetworkIsolation(_) => Some(Networking)
    case InterfaceState(iface, _) => Some(Interface(iface))
    case Service(name, _) => Some(Unit(name))
    case SetMode(_) => Some(SecurityMode)
    case Unmount(path) => Some(MountPoint(PathOf(path)))
    case TerminateProcess(process, _) => Some(ProcessName(process))
    case Notify(_, _, _) => None
    case CaptureEvidence(_, _) => None
    case Exec(_, _, _, _) => None
  }

  /** Which family of resources a key text belongs to, read off its leading characters. */
  function Family(key: string): nat {
    if |key| < 4 then 0
    else if key[0] == 'v' then 1 else if key[0] == 'n' then 2 else if key[0] == 'i' then 3
    else if key[0] == 's' then 4 else if key[0] == 'p' then 5 else if key[2] == 'd' then 6 else 7
  }

  function FamilyOf(resource: Resource): nat {
    match resource
    case Vault(_) => 1 case Networking => 2 case Interface(_) => 3
    case Unit(_) => 4 case ProcessName(_) => 5 case SecurityMode => 6 case MountPoint(_) => 7
  }

  lemma KeyFamily(a: ActionSpec)
    requires ConflictKey(a).Some?
    ensures ResourceOf(a).Some? && Family(ConflictKey(a).value) == FamilyOf(ResourceOf(a).value)
  {
    match a
    case LockVault(v) => assert ("vault:" + v)[0] == 'v';
    case UnlockVault(v) => assert ("vault:" + v)[0] == 'v';
    case NetworkIsolation(_) =>
    case InterfaceState(i, _) => assert ("interface:" + i)[0] == 'i';
    case Service(n, _) => assert ("service:" + n)[0] == 's';
    case SetMode(_) =>
    case Unmount(p) =>
      assert ("mount:" + p)[0] == 'm';
      assert ("mount:" + p)[2] == 'u';
    case TerminateProcess(p, _) => assert ("process:" + p)[0] == 'p';
  }

  lemma SuffixEqual(prefix: string, a: string, b: string)
    requires prefix + a == prefix + b
    ensures a == b
  {
    assert a == (prefix + a)[|prefix|..] == (prefix + b)[|prefix|..] == b;
  }

  /** Two unmounts of one mount point under different spellings: what the key text tells apart and the machine does not. */
  predicate SpelledApart(a: ActionSpec, b: ActionSpec) {
    a.Unmount? && b.Unmount? && a.path != b.path && PathOf(a.path) == PathOf(b.path)
  }

  /** Equal key texts always mean one resource of one kind. One resource gives equal key texts exactly when it is not a
      mount point spelled in two ways. */
  lemma KeysIdentifyResources(a: ActionSpec, b: ActionSpec)
    ensures ConflictKey(a).None? <==> ResourceOf(a).None?
    ensures ConflictKey(a) == ConflictKey(b) <==> ResourceOf(a) == ResourceOf(b) && !SpelledApart(a, b)
  {
    if ConflictKey(a).Some? && ConflictKey(a) == ConflictKey(b) {
      KeyFamily(a);
      KeyFamily(b);
      match ResourceOf(a).value
      case Vault(n) => SuffixEqual("vault:", n, ResourceOf(b).value.name);
      case Networking =>
      case Interface(n) => SuffixEqual("interface:", n, ResourceOf(b).value.name);
      case Unit(n) => SuffixEqual("service:", n, ResourceOf(b).value.name);
      case SecurityMode =>
      case MountPoint(_) => SuffixEqual("mount:", a.path, b.path);
      case ProcessName(n) => SuffixEqual("process:", n, ResourceOf(b).value.name);
    }
  }

  // ---------------------------------------------------------------- spellings of one path

  lemma PrefixedConcat(c: char, p: seq<string>, q: seq<string>)
    requires p != []
    ensures Prefixed(c, p + q) == Prefixed(c, p) + q
  {
    assert (p + q)[1..] == p[1..] + q;
  }

  /** The pieces of a text that goes on with a slash are its own and those behind the slash. */
  lemma {:induction false} PiecesAppend(text: Spelling, tail: Spelling)
    requires tail != "" && tail[0] == '/'
    ensures Pieces(text + tail) == Pieces(text) + Pieces(tail[1..])
  {
    if text == "" {
      assert text + tail == tail;
    } else {
      var all := text + tail;
      assert all[0] == text[0] && all[1..] == text[1..] + tail;
      PiecesAppend(text[1..], tail);
      if text[0] != '/' {
        PrefixedConcat(text[0], Pieces(text[1..]), Pieces(tail[1..]));
      }
    }
  }

  lemma TrailingSlash(text: Spelling)
    requires text != ""
    ensures PathOf(text + "/") == PathOf(text)
  {
    PiecesAppend(text, "/");
    var pieces := Pieces(text);
    assert (pieces + [""])[..|pieces|] == pieces;
    assert (text + "/")[0] == text[0];
  }

  /** A dot behind a slash says nothing. */
  lemma SilentDot(text: Spelling)
    requires text != ""
    ensures PathOf(text + "/.") == PathOf(text)
  {
    var all, pieces := text + "/.", Pieces(text);
    PiecesAppend(text, "/.");
    assert "/."[1..] == ".";
    OnePiece(".");
    assert Pieces(all) == pieces + ["."];
    assert (pieces + ["."])[..|pieces|] == pieces && (pieces + ["."])[0] == pieces[0];
    assert all[0] == text[0];
  }

  lemma PiecesBehindSlash(text: Spelling, tail: Spelling, rest: Spelling)
    requires tail == "/" + rest
    ensures Pieces(text + tail) == Pieces(text) + Pieces(rest)
  {
    assert tail[0] == '/' && tail[1..] == rest;
    PiecesAppend(text, tail);
  }

  /** Nor does a doubled slash. */
  lemma DoubledSlash(text: Spelling, single: Spelling, double: Spelling, rest: Spelling)
    requires text != "" && single == "/" + rest && double == "/" + single
    ensures PathOf(text + double) == PathOf(text + single)
  {
    var pieces, more := Pieces(text), Pieces(rest);
    PiecesBehindSlash(text, single, rest);
    PiecesBehindSlash(text, double, single);
    assert single[0] == '/' && single[1..] == rest;
    assert Pieces(single) == [""] + more;
    assert (text + double)[0] == text[0] && (text + single)[0] == text[0];
    assert pieces + ([""] + more) == pieces + [""] + more;
    EmptyPieceSaysNothing(pieces, more);
  }

  lemma {:induction false} EmptyPieceSaysNothing(a: seq<string>, b: seq<string>)
    requires forall i | 0 <= i < |a| :: '/' !in a[i]
    requires forall i | 0 <= i < |b| :: '/' !in b[i]
    ensures Meaningful(a + [""] + b) == Meaningful(a + b)
  {
    if b == [] {
      assert (a + [""] + b)[..|a|] == a && a + b == a;
    } else {
      var front := b[..|b| - 1];
      EmptyPieceSaysNothing(a, front);
      assert (a + [""] + b)[..|a| + |b|] == a + [""] + front && (a + b)[..|a| + |b| - 1] == a + front;
    }
  }

  /** A trailing slash makes another key for the same mount point: every unmount has a rival it does not exclude. */
  lemma SpellingSplitsKey(text: Spelling)
    requires text != ""
    ensures var a, b := ActionSpec.Unmount(text), ActionSpec.Unmount(text + "/");
            SpelledApart(a, b) && ResourceOf(a) == ResourceOf(b) && ConflictKey(a) != ConflictKey(b)
  {
    TrailingSlash(text);
    assert |text + "/"| != |text|;
    KeysIdentifyResources(ActionSpec.Unmount(text), ActionSpec.Unmount(text + "/"));
  }

  function Join(components: seq<Component>): string {
    if components == [] then ""
    else if |components| == 1 then components[0]
    else components[0] + ("/" + Join(components[1..]))
  }

  /** The plain spelling of an absolute path: one slash before each component. */
  function Plain(path: Path): Spelling {
    "/" + Join(path.components)
  }

  lemma {:induction false} OnePiece(text: string)
    requires '/' !in text
    ensures Pieces(text) == [text]
  {
    if text != "" {
      OnePiece(text[1..]);
      assert [text[0]] + text[1..] == text;
    }
  }

  lemma {:induction false} PiecesOfJoin(components: seq<Component>)
    requires components != []
    ensures Pieces(Join(components)) == components
  {
    OnePiece(components[0]);
    if |components| > 1 {
      PiecesOfJoin(components[1..]);
      PiecesAppend(components[0], "/" + Join(components[1..]));
      assert ("/" + Join(components[1..]))[1..] == Join(components[1..]);
      assert [components[0]] + components[1..] == components;
    }
  }

  lemma {:induction false} AllMeaningful(components: seq<Component>)
    requires "." !in components
    ensures Meaningful([""] + components) == components
  {
    var pieces := [""] + components;
    if components == [] {
      assert pieces[..0] == [];
    } else {
      var front := components[..|components| - 1];
      AllMeaningful(front);
      assert pieces[..|pieces| - 1] == [""] + front;
    }
  }

  /** Every absolute path without dots is read back from its plain spelling, so mount points spelled plainly never
      clash: among them key texts coincide exactly when the resources do. */
  lemma PlainSpellingReadsBack(path: Path)
    requires path.absolute && "." !in path.components
    ensures PathOf(Plain(path)) == path
  {
    var text := Plain(path);
    assert text[0] == '/' && text[1..] == Join(path.components);
    if path.components == [] {
      assert Pieces(text) == [""] + [""];
      assert ([""] + [""])[..1] == [""] + [];
    } else {
      PiecesOfJoin(path.components);
    }
    AllMeaningful(path.components);
  }

  predicate PlainlySpelled(action: ActionSpec) {
    action.Unmount? ==> action.path == Plain(PathOf(action.path))
  }

  lemma PlainKeysIdentify(a: ActionSpec, b: ActionSpec)
    requires PlainlySpelled(a) && PlainlySpelled(b)
    ensures ConflictKey(a) == ConflictKey(b) <==> ResourceOf(a) == ResourceOf(b)
  {
    KeysIdentifyResources(a, b);
  }
}
