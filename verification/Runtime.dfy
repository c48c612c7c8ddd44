/** The daemon as a step machine: events, control requests, reloads and restarts over one durable store. */
module Runtime {
  import opened Options
  import opened Encoding
  import opened Config
  import opened Events
  import opened Matching
  import opened RuleRuntimes
  import opened Engine
  import opened Validation
  import opened Executor
  import opened Audit
  import opened Ledger

  datatype RuntimeState = RuntimeState(config: Config, engine: EngineState, context: ExecutionContext, store: Store)

  const MODE_KEY := "mode"
  const ISOLATED_KEY := "network_isolated"
  const RECOVERY_KEY := "recovery_mode"

  function Flag(value: bool): string {
    if value then "true" else "false"
  }

  function WithMode(e: EngineState, mode: string): EngineState {
    e.(snapshot := e.snapshot.(mode := mode))
  }

  /** The state change that follows a successful, real action. */
  function AfterOutcome(s: RuntimeState, outcome: Outcome, fails: bool): (RuntimeState, bool) {
    if !Successful(outcome) || outcome.dryRun then (s, true)
    else match outcome.effect
         case NoEffect => (s, true)
         case ModeSet(mode) =>
           var (st, ok) := Put(s.store, MODE_KEY, mode, fails);
           (s.(engine := WithMode(s.engine, mode), store := st), ok)
         case NetworkIsolated(enabled) =>
           var (st, ok) := Put(s.store, ISOLATED_KEY, Flag(enabled), fails);
           (s.(store := st), ok)
  }

  function AfterEnding(s: RuntimeState, ending: Ending, fails: bool): (RuntimeState, bool) {
    match ending
    case Stopped => (s, false)
    case Skipped => (s, true)
    case Ended(outcome) => AfterOutcome(s, outcome, fails)
  }

  function ExecutePlan(s: RuntimeState, codec: Codec, event: Event, plan: ActionPlan, io: PlanIo): (RuntimeState, bool) {
    var (st, ending) := RunPlan(s.store, codec, s.context, event, plan, io);
    AfterEnding(s.(store := st), ending, io.effectFails)
  }

  /** Plans are executed in order until one meets a storage error. */
  function ExecutePlans(s: RuntimeState, codec: Codec, event: Event, plans: seq<ActionPlan>, ios: nat -> PlanIo): (RuntimeState, bool) {
    if plans == [] then (s, true)
    else
      var n := |plans| - 1;
      var (t, ok) := ExecutePlans(s, codec, event, plans[..n], ios);
      if ok then ExecutePlan(t, codec, event, plans[n], ios(n)) else (t, false)
  }

  function EventEntry(codec: Codec, event: Event): Entry {
    Entry(Some(event.id), "event", None, codec.event(event))
  }

  function ProcessEvent(s: RuntimeState, codec: Codec, event: Event, host: Host, io: Io, ios: nat -> PlanIo): RuntimeState {
    var (st, ok) := LogEntry(s.store, codec, EventEntry(codec, event), io);
    if !ok then s.(store := st)
    else
      var handled := s.(store := st, engine := HandleState(s.engine, event, host));
      ExecutePlans(handled, codec, event, HandlePlan(s.engine, event, host), ios).0
  }

  function ChangeMode(s: RuntimeState, codec: Codec, mode: string, stateFails: bool, note: string, io: Io): RuntimeState {
    if mode !in ModeNames(s.config.modes) then s
    else
      var (st, ok) := Put(s.store, MODE_KEY, mode, stateFails);
      var t := s.(engine := WithMode(s.engine, mode), store := st);
      if ok then t.(store := LogEntry(st, codec, Entry(None, "mode_changed", None, note), io).0) else t
  }

  function ChangeRecovery(s: RuntimeState, codec: Codec, enabled: bool, stateFails: bool, note: string, io: Io): RuntimeState {
    var (st, ok) := Put(s.store, RECOVERY_KEY, Flag(enabled), stateFails);
    var t := s.(engine := WithRecovery(s.engine, enabled), store := st);
    if ok then t.(store := LogEntry(st, codec, Entry(None, "recovery_mode_changed", None, note), io).0) else t
  }

  /** Rules, executor and configuration change together, and only once everything that can refuse has agreed. */
  function Adopt(s: RuntimeState, codec: Codec, config: Config, note: string, io: Io): RuntimeState {
    RuntimeState(config, WithRules(s.engine, config.rules), ExecutorFor(config),
                 LogEntry(s.store, codec, Entry(None, "configuration_reloaded", None, note), io).0)
  }

  function ConfiguredMode(modes: seq<ModeConfig>): string {
    if modes == [] then "normal" else FirstInitial(modes, modes[0].name)
  }

  function FirstInitial(modes: seq<ModeConfig>, default: string): string {
    if modes == [] then default else if modes[0].initial then modes[0].name else FirstInitial(modes[1..], default)
  }

  function InitialMode(config: Config, t: Tables): string {
    if MODE_KEY in t.state && (config.modes == [] || t.state[MODE_KEY] in ModeNames(config.modes))
    then t.state[MODE_KEY] else ConfiguredMode(config.modes)
  }

  /** A fresh process over the database it finds, opened with the configured retention. */
  function Boot(store: Store, config: Config, now: int): RuntimeState {
    var t := store.tables;
    var recovery := RECOVERY_KEY in t.state && t.state[RECOVERY_KEY] == Flag(true);
    RuntimeState(config, WithRecovery(NewEngine(config.rules, InitialMode(config, t), now), recovery), ExecutorFor(config),
                 store.(maxRecords := config.maxRecords))
  }

  /** `available` says that the file could be read and, on reload, that the new sensors started. */
  datatype Command =
    | Process(event: Event, host: Host, io: Io, ios: nat -> PlanIo)
    | SetMode(mode: string, stateFails: bool, note: string, io: Io)
    | Recovery(enabled: bool, stateFails: bool, note: string, io: Io)
    | Reload(config: Config, available: bool, note: string, io: Io)
    | Restart(config: Config, available: bool, now: int)
    | Announce(kind: string, note: string, io: Io)

  /** The records of a start and of a graceful stop. */
  function LifecycleNote(s: RuntimeState, codec: Codec, kind: string, note: string, io: Io): RuntimeState {
    s.(store := LogEntry(s.store, codec, Entry(None, kind, None, note), io).0)
  }

  ghost function Next(s: RuntimeState, codec: Codec, env: Surroundings, command: Command): RuntimeState {
    match command
    case Process(event, host, io, ios) => ProcessEvent(s, codec, event, host, io, ios)
    case SetMode(mode, stateFails, note, io) => ChangeMode(s, codec, mode, stateFails, note, io)
    case Recovery(enabled, stateFails, note, io) => ChangeRecovery(s, codec, enabled, stateFails, note, io)
    case Reload(config, available, note, io) =>
      if available && ConfigValid(config, env) then Adopt(s, codec, config, note, io) else s
    case Restart(config, available, now) =>
      if available && ConfigValid(config, env) then Boot(s.store, config, now) else s
    case Announce(kind, note, io) => LifecycleNote(s, codec, kind, note, io)
  }

  ghost function Run(s: RuntimeState, codec: Codec, env: Surroundings, commands: seq<Command>): RuntimeState {
    if commands == [] then s else Next(Run(s, codec, env, commands[..|commands| - 1]), codec, env, commands[|commands| - 1])
  }

  // ---------------------------------------------------------------- the mutable runtime

  class Daemon {
    const codec: Codec
    var config: Config
    var context: ExecutionContext
    const engine: PolicyEngine
    const audit: AuditStore
    ghost var log: seq<Row>
    ghost var trace: seq<Effect>

    ghost predicate Valid()
      reads this, engine, engine.snapshot
    {
      engine.Valid() && audit.digest == codec.digest && codec.hasher == HasherOf(codec.digest, audit.genesis)
    }

    ghost function StoreView(): Store
      reads this, audit
    {
      Store(audit.View(), audit.maxRecords, log, trace)
    }

    ghost function View(): RuntimeState
      reads this, engine, engine.snapshot, audit
    {
      RuntimeState(config, engine.View(), context, StoreView())
    }

    constructor (codec: Codec, config: Config, audit: AuditStore, ghost env: Surroundings, now: int,
                 ghost log: seq<Row>, ghost trace: seq<Effect>)
      requires ConfigValid(config, env) && audit.maxRecords == config.maxRecords
      requires audit.digest == codec.digest && codec.hasher == HasherOf(codec.digest, audit.genesis)
      ensures Valid() && View() == Boot(Store(audit.View(), audit.maxRecords, log, trace), config, now)
      ensures fresh(engine) && fresh(engine.snapshot) && this.audit == audit
    {
      this.codec, this.config, this.audit, context := codec, config, audit, ExecutorFor(config);
      this.log, this.trace := log, trace;
      var initialMode := InitialMode(config, audit.View());
      var started := new PolicyEngine(config.rules, initialMode, now);
      engine := started;
      new;
      var recovery := RECOVERY_KEY in audit.state && audit.state[RECOVERY_KEY] == Flag(true);
      engine.SetRecoveryMode(recovery);
    }

    method AppendAudit(entry: Entry, io: Io) returns (ok: bool)
      requires audit.digest == codec.digest && codec.hasher == HasherOf(codec.digest, audit.genesis)
      modifies this`log, this`trace, audit`rows, audit`nextId, audit`state
      ensures (StoreView(), ok) == LogEntry(old(StoreView()), codec, entry, io)
    {
      ghost var row := NewRow(audit.View(), codec.hasher, entry, io.timestamp);
      var appended := audit.Append(entry, io);
      ok := appended.Some?;
      if ok {
        log := log + [row];
        trace := trace + [Audited(entry)];
      }
    }

    method RecordLedger(key: LedgerKey, status: Status, fails: bool) returns (ok: bool)
      modifies this`trace, audit`ledger
      ensures (StoreView(), ok) == Record(old(StoreView()), key, status, fails)
    {
      ok := audit.RecordAction(key, status, fails);
      if ok {
        trace := trace + [Ledgered(key, status)];
      }
    }

    method PutState(key: string, value: string, fails: bool) returns (ok: bool)
      modifies audit`state
      ensures (StoreView(), ok) == Put(old(StoreView()), key, value, fails)
    {
      ok := audit.SetState(key, value, fails);
    }

    method ConcludePlan(key: LedgerKey, outcome: Outcome, io: PlanIo) returns (ending: Ending)
      requires audit.digest == codec.digest && codec.hasher == HasherOf(codec.digest, audit.genesis)
      modifies this`log, this`trace, audit
      ensures (StoreView(), ending) == Conclude(old(StoreView()), codec, key, outcome, io)
      ensures audit.maxRecords == old(audit.maxRecords)
    {
      var ok := RecordLedger(key, StatusOf(outcome), io.recordFails);
      if !ok {
        return Stopped;
      }
      ok := AppendAudit(ConcludedEntry(codec, key, outcome), io.conclude);
      ending := if ok then Ended(outcome) else Stopped;
    }

    method Attempt(event: Event, plan: ActionPlan, io: PlanIo) returns (ending: Ending)
      requires audit.digest == codec.digest && codec.hasher == HasherOf(codec.digest, audit.genesis)
      modifies this`log, this`trace, audit
      ensures (StoreView(), ending) == RunPlan(old(StoreView()), codec, context, event, plan, io)
    {
      var key := LedgerKey(event.id, plan.ruleId, codec.digest(Utf8(codec.action(plan.action))));
      if io.lookupFails {
        return Stopped;
      }
      var completed := audit.ActionCompleted(key);
      if completed {
        return Skipped;
      }
      var ok := RecordLedger(key, Started, io.startFails);
      if !ok {
        return Stopped;
      }
      ok := AppendAudit(StartedEntry(codec, key, plan.action), io.announce);
      if !ok {
        return Stopped;
      }
      trace := trace + [Executed(key, plan.action)];
      var outcome := Execute(context, plan.action, io.answer);
      ending := ConcludePlan(key, outcome, io);
    }

    method ApplyEffect(outcome: Outcome, fails: bool) returns (ok: bool)
      requires Valid()
      modifies engine.snapshot, audit`state
      ensures Valid() && (View(), ok) == AfterOutcome(old(View()), outcome, fails)
    {
      ok := true;
      if outcome.Outcome? && outcome.success && !outcome.dryRun {
        match outcome.effect {
          case NoEffect =>
          case ModeSet(mode) =>
            engine.SetMode(mode);
            ok := PutState(MODE_KEY, mode, fails);
          case NetworkIsolated(enabled) =>
            ok := PutState(ISOLATED_KEY, Flag(enabled), fails);
        }
      }
    }

    method RunOne(event: Event, plan: ActionPlan, io: PlanIo) returns (ok: bool)
      requires Valid()
      modifies this`log, this`trace, engine.snapshot, audit
      ensures Valid() && (View(), ok) == ExecutePlan(old(View()), codec, event, plan, io)
    {
      var ending := Attempt(event, plan, io);
      match ending {
        case Stopped => ok := false;
        case Skipped => ok := true;
        case Ended(outcome) => ok := ApplyEffect(outcome, io.effectFails);
      }
    }

    method RunPlans(event: Event, plans: seq<ActionPlan>, ios: nat -> PlanIo)
      requires Valid()
      modifies this`log, this`trace, engine.snapshot, audit
      ensures Valid() && View() == ExecutePlans(old(View()), codec, event, plans, ios).0
    {
      ghost var s := View();
      var ok := true;
      var n := 0;
      while ok && n < |plans|
        invariant 0 <= n <= |plans| && Valid() && (View(), ok) == ExecutePlans(s, codec, event, plans[..n], ios)
      {
        assert plans[..n + 1][..n] == plans[..n];
        ok := RunOne(event, plans[n], ios(n));
        n := n + 1;
      }
      if n < |plans| {
        StoppedStays(s, codec, event, plans, ios, n);
      } else {
        assert plans[..n] == plans;
      }
    }

    method Process(event: Event, host: Host, io: Io, ios: nat -> PlanIo)
      requires Valid() && FaultFree(engine.View(), event)
      modifies this`log, this`trace, engine, engine.snapshot, audit
      ensures Valid() && View() == ProcessEvent(old(View()), codec, event, host, io, ios)
    {
      var ok := AppendAudit(EventEntry(codec, event), io);
      if !ok {
        return;
      }
      var plans := engine.Handle(event, host);
      RunPlans(event, plans, ios);
    }

    method Announce(kind: string, note: string, io: Io) returns (ok: bool)
      requires Valid()
      modifies this`log, this`trace, audit
      ensures Valid() && View() == LifecycleNote(old(View()), codec, kind, note, io)
      ensures ok <==> AppendSucceeds(old(audit.View()), codec.hasher, Entry(None, kind, None, note), io)
    {
      ok := AppendAudit(Entry(None, kind, None, note), io);
    }

    method RequestMode(mode: string, stateFails: bool, note: string, io: Io)
      requires Valid()
      modifies this`log, this`trace, engine.snapshot, audit
      ensures Valid() && View() == ChangeMode(old(View()), codec, mode, stateFails, note, io)
    {
      if mode !in ModeNames(config.modes) {
        return;
      }
      engine.SetMode(mode);
      var ok := PutState(MODE_KEY, mode, stateFails);
      if ok {
        ok := AppendAudit(Entry(None, "mode_changed", None, note), io);
      }
    }

    method RequestRecovery(enabled: bool, stateFails: bool, note: string, io: Io)
      requires Valid()
      modifies this`log, this`trace, engine, audit
      ensures Valid() && View() == ChangeRecovery(old(View()), codec, enabled, stateFails, note, io)
    {
      engine.SetRecoveryMode(enabled);
      var ok := PutState(RECOVERY_KEY, Flag(enabled), stateFails);
      if ok {
        ok := AppendAudit(Entry(None, "recovery_mode_changed", None, note), io);
      }
    }

    method Reload(candidate: Config, available: bool, note: string, io: Io, env: Surroundings)
      requires Valid()
      modifies this, engine, audit
      ensures Valid() && View() == Next(old(View()), codec, env, Command.Reload(candidate, available, note, io))
    {
      var errors := ValidateConfig(candidate, env);
      if !available || errors != [] {
        return;
      }
      engine.ReplaceRules(candidate.rules);
      context := ExecutorFor(candidate);
      config := candidate;
      var ok := AppendAudit(Entry(None, "configuration_reloaded", None, note), io);
    }
  }

  lemma {:induction false} StoppedStays(s: RuntimeState, codec: Codec, event: Event, plans: seq<ActionPlan>, ios: nat -> PlanIo, n: nat)
    requires n <= |plans| && !ExecutePlans(s, codec, event, plans[..n], ios).1
    ensures ExecutePlans(s, codec, event, plans, ios) == ExecutePlans(s, codec, event, plans[..n], ios)
    decreases |plans|
  {
    if n == |plans| {
      assert plans[..n] == plans;
    } else {
      assert plans[..|plans| - 1][..n] == plans[..n];
      StoppedStays(s, codec, event, plans[..|plans| - 1], ios, n);
    }
  }
}
