/** The executor's static checks, made again on every action before anything is run. */
module Executor {
  import opened Options
  import opened Config
  import opened Validation

  datatype ExecutionContext = ExecutionContext(
    dryRun: bool, allowedExecutables: set<Path>, managedProcesses: set<string>, vaults: seq<VaultConfig>)

  function ExecutorFor(config: Config): ExecutionContext {
    ExecutionContext(config.daemon.dryRun, (set p | p in config.daemon.allowedExecutables),
                     (set p | p in config.daemon.managedProcesses), config.vaults)
  }

  datatype Refusal = UnknownVault | NoMountPath | RelativePath | BadInterface | BadUnit | UnmanagedProcess
                   | RelativeEvidence | UnapprovedExecutable

  function FindVault(vaults: seq<VaultConfig>, name: string): Option<VaultConfig> {
    if vaults == [] then None
    else if vaults[0].name == name then Some(vaults[0]) else FindVault(vaults[1..], name)
  }

  /** The first check that turns the action away, if any does. */
  function Refuses(context: ExecutionContext, action: ActionSpec): Option<Refusal> {
    match action
    case LockVault(name) =>
      var vault := FindVault(context.vaults, name);
      if vault.None? then Some(UnknownVault)
      else if vault.value.adapter.Gocryptfs? && vault.value.mountPath.None? then Some(NoMountPath) else None
    case UnlockVault(name) => if FindVault(context.vaults, name).None? then Some(UnknownVault) else None
    case Unmount(path) => if PathOf(path).absolute then None else Some(RelativePath)
    case InterfaceState(iface, _) => if ValidInterfaceName(iface) then None else Some(BadInterface)
    case Service(name, _) => if ValidUnitName(name) then None else Some(BadUnit)
    case TerminateProcess(process, _) => if process in context.managedProcesses then None else Some(UnmanagedProcess)
    case CaptureEvidence(paths, destination) =>
      if PathOf(destination).absolute && forall p | p in paths :: PathOf(p).absolute then None else Some(RelativeEvidence)
    case Exec(executable, _, _, _) =>
      if PathOf(executable) in context.allowedExecutables then None else Some(UnapprovedExecutable)
    case _ => None
  }

  /** How the machine answered: an adapter ran to an exit status, or the action could not be carried out. */
  datatype Answer = Exited(success: bool) | Unavailable

  datatype ActionEffect = NoEffect | ModeSet(mode: string) | NetworkIsolated(enabled: bool)

  datatype Outcome = Outcome(success: bool, dryRun: bool, effect: ActionEffect) | Error

  function Execute(context: ExecutionContext, action: ActionSpec, answer: Answer): Outcome {
    if context.dryRun then Outcome(true, true, NoEffect)
    else if Refuses(context, action).Some? then Error
    else if action.SetMode? then Outcome(true, false, ModeSet(action.mode))
    else if answer.Unavailable? then Error
    else Outcome(answer.success, false,
                 if action.NetworkIsolation? && answer.success then NetworkIsolated(action.enabled) else NoEffect)
  }

  lemma {:induction false} NamedVaultFound(vaults: seq<VaultConfig>, name: string)
    requires name in VaultNames(vaults)
    ensures FindVault(vaults, name).Some? && FindVault(vaults, name).value in vaults
  {
    if vaults[0].name != name {
      NamedVaultFound(vaults[1..], name);
    }
  }

  /** The executor turns away no action of a validated configuration, and each program it may run is pinned. */
  lemma ValidatedActionPasses(config: Config, env: Surroundings, rule: Rule, action: ActionSpec)
    requires ConfigValid(config, env) && rule in config.rules && action in rule.actions
    ensures Refuses(ExecutorFor(config), action).None?
    ensures action.Exec? ==> action.expectedSha256.Some? && ValidDigest(action.expectedSha256.value)
  {
    assert RuleValid(rule, config, env);
    assert ActionValid(action, config.daemon, VaultNames(config.vaults), ModeNames(config.modes));
    if action.LockVault? || action.UnlockVault? {
      NamedVaultFound(config.vaults, action.vault);
      assert VaultValid(FindVault(config.vaults, action.vault).value);
    }
  }

  lemma {:induction false} FoundVaultIsNamed(vaults: seq<VaultConfig>, name: string)
    ensures FindVault(vaults, name).Some? <==> name in VaultNames(vaults)
    ensures FindVault(vaults, name).Some? ==> FindVault(vaults, name).value in vaults && FindVault(vaults, name).value.name == name
  {
    if vaults != [] && vaults[0].name != name {
      FoundVaultIsNamed(vaults[1..], name);
    }
  }

  /** Under a valid configuration the executor turns an action away, for the reason it gives, exactly when the vault is not
      declared, a path is relative, a name is malformed, the process is not managed or the program is not listed; the other
      actions never. */
  lemma RefusesExact(config: Config, env: Surroundings, action: ActionSpec)
    requires ConfigValid(config, env)
    ensures ExecutorFor(config).dryRun == config.daemon.dryRun
    ensures Refuses(ExecutorFor(config), action) ==
            match action
            case LockVault(name) => if exists v | v in config.vaults :: v.name == name then None else Some(UnknownVault)
            case UnlockVault(name) => if exists v | v in config.vaults :: v.name == name then None else Some(UnknownVault)
            case Unmount(path) => if path != "" && path[0] == '/' then None else Some(RelativePath)
            case InterfaceState(iface, _) => if ValidInterfaceName(iface) then None else Some(BadInterface)
            case Service(name, _) => if ValidUnitName(name) then None else Some(BadUnit)
            case TerminateProcess(process, _) =>
              if process in config.daemon.managedProcesses then None else Some(UnmanagedProcess)
            case CaptureEvidence(paths, destination) =>
              if exists p | p in paths + [destination] :: p == "" || p[0] != '/' then Some(RelativeEvidence) else None
            case Exec(executable, _, _, _) =>
              if PathOf(executable) in config.daemon.allowedExecutables then None else Some(UnapprovedExecutable)
            case _ => None
  {
    if action.LockVault? || action.UnlockVault? {
      FoundVaultIsNamed(config.vaults, action.vault);
      if FindVault(config.vaults, action.vault).Some? {
        assert VaultValid(FindVault(config.vaults, action.vault).value);
      }
    } else if action.CaptureEvidence? {
      var all := action.paths + [action.destination];
      assert action.destination in all && forall p :: p in all <==> p in action.paths || p == action.destination;
    }
  }

  /** An execution succeeds exactly when it is a dry run, or it is not turned away and either sets the mode, which cannot
      fail, or its adapter exits successfully. Only a real success has an effect, and it is the one its action names. */
  lemma OutcomeExact(context: ExecutionContext, action: ActionSpec, answer: Answer)
    ensures var outcome := Execute(context, action, answer);
            && (outcome.Outcome? && outcome.success <==>
                context.dryRun || (Refuses(context, action).None? && (action.SetMode? || answer == Exited(true))))
            && (outcome.Outcome? ==> outcome.dryRun == context.dryRun)
            && (forall mode :: outcome.Outcome? && outcome.effect == ModeSet(mode) <==>
                  !context.dryRun && action == ActionSpec.SetMode(mode))
            && (forall enabled :: outcome.Outcome? && outcome.effect == NetworkIsolated(enabled) <==>
                  !context.dryRun && action == ActionSpec.NetworkIsolation(enabled) && answer == Exited(true))
  {
  }

  /** Validation and the executor agree: under a valid configuration an action is valid exactly when the executor does not
      turn it away and, what the executor does not look at, a mode is declared and a program has a well-formed digest and
      environment. */
  lemma ValidationMatchesExecutor(config: Config, env: Surroundings, action: ActionSpec)
    requires ConfigValid(config, env)
    ensures ActionValid(action, config.daemon, VaultNames(config.vaults), ModeNames(config.modes)) <==>
            && Refuses(ExecutorFor(config), action).None?
            && (action.SetMode? ==> exists m | m in config.modes :: m.name == action.mode)
            && (action.Exec? ==> && action.expectedSha256.Some? && ValidDigest(action.expectedSha256.value)
                                 && forall key | key in action.environment :: ValidVariable(key))
  {
    RefusesExact(config, env, action);
    if action.CaptureEvidence? {
      var all := action.paths + [action.destination];
      assert action.destination in all && forall p :: p in all <==> p in action.paths || p == action.destination;
    }
  }
}
