/** What holds in every state the daemon can reach, whatever fails and whatever is reloaded or restarted. */
module RuntimeRuns {
  import opened Options
  import opened Ordering
  import opened Config
  import opened Events
  import opened Matching
  import opened RuleRuntimes
  import opened Conflicts
  import opened Engine
  import EngineRuns
  import opened Validation
  import opened Executor
  import opened Audit
  import opened Ledger
  import opened Runtime

  /** The rules in force and the executor belong to one and the same valid configuration. */
  ghost predicate Consistent(s: RuntimeState, env: Surroundings) {
    && ConfigValid(s.config, env) && InForce(s.engine) && s.context == ExecutorFor(s.config)
    && (forall rule :: rule in s.engine.rules <==> rule in s.config.rules)
  }

  ghost predicate RuntimeInv(s: RuntimeState, codec: Codec, env: Surroundings) {
    Consistent(s, env) && StoreInv(s.store, codec)
  }

  // ---------------------------------------------------------------- the configuration side

  /** Only the engine's dynamic part changed: its rules, the configuration and the executor did not. */
  ghost predicate SameSetup(s: RuntimeState, t: RuntimeState) {
    t.config == s.config && t.context == s.context && t.engine.rules == s.engine.rules
  }

  lemma PlanKeepsSetup(s: RuntimeState, codec: Codec, event: Event, plan: ActionPlan, io: PlanIo)
    ensures var t := ExecutePlan(s, codec, event, plan, io).0;
            SameSetup(s, t) && t.engine.runtime == s.engine.runtime && t.engine.recovery == s.engine.recovery
  {
    var (st, ending) := RunPlan(s.store, codec, s.context, event, plan, io);
    EndingKeepsSetup(s.(store := st), ending, io.effectFails);
  }

  lemma EndingKeepsSetup(s: RuntimeState, ending: Ending, fails: bool)
    ensures var t := AfterEnding(s, ending, fails).0;
            SameSetup(s, t) && t.engine.runtime == s.engine.runtime && t.engine.recovery == s.engine.recovery
  {
  }

  lemma {:induction false} PlansKeepSetup(s: RuntimeState, codec: Codec, event: Event, plans: seq<ActionPlan>, ios: nat -> PlanIo)
    ensures var t := ExecutePlans(s, codec, event, plans, ios).0;
            SameSetup(s, t) && t.engine.runtime == s.engine.runtime && t.engine.recovery == s.engine.recovery
  {
    if plans != [] {
      var n := |plans| - 1;
      PlansKeepSetup(s, codec, event, plans[..n], ios);
      PlanKeepsSetup(ExecutePlans(s, codec, event, plans[..n], ios).0, codec, event, plans[n], ios(n));
    }
  }

  lemma ProcessKeepsConsistent(s: RuntimeState, codec: Codec, env: Surroundings, event: Event, host: Host, io: Io, ios: nat -> PlanIo)
    requires Consistent(s, env)
    ensures Consistent(ProcessEvent(s, codec, event, host, io, ios), env)
  {
    var (st, ok) := LogEntry(s.store, codec, EventEntry(codec, event), io);
    if ok {
      var handled := s.(store := st, engine := HandleState(s.engine, event, host));
      EngineRuns.StepKeepsInForce(s.engine, EngineRuns.Step.Handle(event, host));
      PlansKeepSetup(handled, codec, event, HandlePlan(s.engine, event, host), ios);
    }
  }

  lemma NewRulesConsistent(s: RuntimeState, env: Surroundings)
    requires ConfigValid(s.config, env) && s.context == ExecutorFor(s.config)
    requires s.engine.rules == StableSort(RuleLe, s.config.rules) && s.engine.runtime.Keys == Ids(s.config.rules)
    ensures Consistent(s, env)
  {
    SortedRules(s.config.rules);
  }

  lemma ModeKeepsConsistent(s: RuntimeState, codec: Codec, env: Surroundings, mode: string, fails: bool, note: string, io: Io)
    requires Consistent(s, env)
    ensures Consistent(ChangeMode(s, codec, mode, fails, note, io), env)
  {
  }

  lemma RecoveryKeepsConsistent(s: RuntimeState, codec: Codec, env: Surroundings, enabled: bool, fails: bool, note: string, io: Io)
    requires Consistent(s, env)
    ensures Consistent(ChangeRecovery(s, codec, enabled, fails, note, io), env)
  {
    EngineRuns.StepKeepsInForce(s.engine, EngineRuns.Step.Recovery(enabled));
  }

  lemma AdoptIsConsistent(s: RuntimeState, codec: Codec, env: Surroundings, config: Config, note: string, io: Io)
    requires ConfigValid(config, env)
    ensures Consistent(Adopt(s, codec, config, note, io), env)
  {
    NewRulesConsistent(Adopt(s, codec, config, note, io), env);
  }

  lemma BootIsConsistent(store: Store, env: Surroundings, config: Config, now: int)
    requires ConfigValid(config, env)
    ensures Consistent(Boot(store, config, now), env)
  {
    NewRulesConsistent(Boot(store, config, now), env);
  }

  lemma NoteKeepsConsistent(s: RuntimeState, codec: Codec, env: Surroundings, kind: string, note: string, io: Io)
    requires Consistent(s, env)
    ensures Consistent(LifecycleNote(s, codec, kind, note, io), env)
  {
  }

  lemma NextKeepsConsistent(s: RuntimeState, codec: Codec, env: Surroundings, command: Command)
    requires Consistent(s, env)
    ensures Consistent(Next(s, codec, env, command), env)
  {
    match command
    case Process(event, host, io, ios) => ProcessKeepsConsistent(s, codec, env, event, host, io, ios);
    case SetMode(mode, fails, note, io) => ModeKeepsConsistent(s, codec, env, mode, fails, note, io);
    case Recovery(enabled, fails, note, io) => RecoveryKeepsConsistent(s, codec, env, enabled, fails, note, io);
    case Reload(config, available, note, io) =>
      if available && ConfigValid(config, env) { AdoptIsConsistent(s, codec, env, config, note, io); }
    case Restart(config, available, now) =>
      if available && ConfigValid(config, env) { BootIsConsistent(s.store, env, config, now); }
    case Announce(kind, note, io) => NoteKeepsConsistent(s, codec, env, kind, note, io);
  }

  // ---------------------------------------------------------------- the storage side

  lemma KeysAreNotTheAnchor()
    ensures MODE_KEY != ANCHOR_KEY && ISOLATED_KEY != ANCHOR_KEY && RECOVERY_KEY != ANCHOR_KEY
  {
    assert |MODE_KEY| != |ANCHOR_KEY| && |ISOLATED_KEY| != |ANCHOR_KEY| && |RECOVERY_KEY| != |ANCHOR_KEY|;
  }

  lemma PlanKeepsStore(s: RuntimeState, codec: Codec, event: Event, plan: ActionPlan, io: PlanIo)
    requires StoreInv(s.store, codec)
    ensures StoreInv(ExecutePlan(s, codec, event, plan, io).0.store, codec)
  {
    RunPlanKeepsInv(s.store, codec, s.context, event, plan, io);
    var (st, ending) := RunPlan(s.store, codec, s.context, event, plan, io);
    if ending.Ended? {
      OutcomeKeepsStore(s.(store := st), codec, ending.outcome, io.effectFails);
    }
  }

  lemma OutcomeKeepsStore(s: RuntimeState, codec: Codec, outcome: Outcome, fails: bool)
    requires StoreInv(s.store, codec)
    ensures StoreInv(AfterOutcome(s, outcome, fails).0.store, codec)
  {
    KeysAreNotTheAnchor();
    if outcome.Outcome? {
      match outcome.effect
      case NoEffect =>
      case ModeSet(mode) => PutKeepsInv(s.store, codec, MODE_KEY, mode, fails);
      case NetworkIsolated(enabled) => PutKeepsInv(s.store, codec, ISOLATED_KEY, Flag(enabled), fails);
    }
  }

  lemma {:induction false} PlansKeepStore(s: RuntimeState, codec: Codec, event: Event, plans: seq<ActionPlan>, ios: nat -> PlanIo)
    requires StoreInv(s.store, codec)
    ensures StoreInv(ExecutePlans(s, codec, event, plans, ios).0.store, codec)
  {
    if plans != [] {
      var n := |plans| - 1;
      PlansKeepStore(s, codec, event, plans[..n], ios);
      PlanKeepsStore(ExecutePlans(s, codec, event, plans[..n], ios).0, codec, event, plans[n], ios(n));
    }
  }

  lemma ProcessKeepsStore(s: RuntimeState, codec: Codec, event: Event, host: Host, io: Io, ios: nat -> PlanIo)
    requires StoreInv(s.store, codec)
    ensures StoreInv(ProcessEvent(s, codec, event, host, io, ios).store, codec)
  {
    AppendKeepsInv(s.store, codec, EventEntry(codec, event), io);
    var (st, ok) := LogEntry(s.store, codec, EventEntry(codec, event), io);
    var handled := s.(store := st, engine := HandleState(s.engine, event, host));
    PlansKeepStore(handled, codec, event, HandlePlan(s.engine, event, host), ios);
  }

  lemma ModeKeepsStore(s: RuntimeState, codec: Codec, mode: string, fails: bool, note: string, io: Io)
    requires StoreInv(s.store, codec)
    ensures StoreInv(ChangeMode(s, codec, mode, fails, note, io).store, codec)
  {
    KeysAreNotTheAnchor();
    PutKeepsInv(s.store, codec, MODE_KEY, mode, fails);
    AppendKeepsInv(Put(s.store, MODE_KEY, mode, fails).0, codec, Entry(None, "mode_changed", None, note), io);
  }

  lemma RecoveryKeepsStore(s: RuntimeState, codec: Codec, enabled: bool, fails: bool, note: string, io: Io)
    requires StoreInv(s.store, codec)
    ensures StoreInv(ChangeRecovery(s, codec, enabled, fails, note, io).store, codec)
  {
    KeysAreNotTheAnchor();
    PutKeepsInv(s.store, codec, RECOVERY_KEY, Flag(enabled), fails);
    AppendKeepsInv(Put(s.store, RECOVERY_KEY, Flag(enabled), fails).0, codec,
                   Entry(None, "recovery_mode_changed", None, note), io);
  }

  lemma NextKeepsStore(s: RuntimeState, codec: Codec, env: Surroundings, command: Command)
    requires StoreInv(s.store, codec)
    ensures StoreInv(Next(s, codec, env, command).store, codec)
  {
    match command
    case Process(event, host, io, ios) => ProcessKeepsStore(s, codec, event, host, io, ios);
    case SetMode(mode, fails, note, io) => ModeKeepsStore(s, codec, mode, fails, note, io);
    case Recovery(enabled, fails, note, io) => RecoveryKeepsStore(s, codec, enabled, fails, note, io);
    case Reload(config, _, note, io) =>
      AppendKeepsInv(s.store, codec, Entry(None, "configuration_reloaded", None, note), io);
    case Restart(_, _, _) =>
    case Announce(kind, note, io) => AppendKeepsInv(s.store, codec, Entry(None, kind, None, note), io);
  }

  // ---------------------------------------------------------------- every reachable state

  lemma {:induction false} RunsKeepInv(s: RuntimeState, codec: Codec, env: Surroundings, commands: seq<Command>)
    requires RuntimeInv(s, codec, env)
    ensures RuntimeInv(Run(s, codec, env, commands), codec, env)
  {
    if commands != [] {
      var before := Run(s, codec, env, commands[..|commands| - 1]);
      RunsKeepInv(s, codec, env, commands[..|commands| - 1]);
      NextKeepsConsistent(before, codec, env, commands[|commands| - 1]);
      NextKeepsStore(before, codec, env, commands[|commands| - 1]);
    }
  }

  /** The daemon's first start on an empty database. */
  function FirstBoot(config: Config, now: int): RuntimeState {
    Boot(Store(EMPTY, config.maxRecords, [], []), config, now)
  }

  lemma FirstBootInv(config: Config, codec: Codec, env: Surroundings, now: int)
    requires ConfigValid(config, env)
    ensures RuntimeInv(FirstBoot(config, now), codec, env)
  {
    NewRulesConsistent(FirstBoot(config, now), env);
  }

  /** Over every run, across storage failures, reloads and restarts: after a success nothing is executed or recorded for
      that event, rule and action again. */
  lemma LedgerSafety(config: Config, codec: Codec, env: Surroundings, now: int, commands: seq<Command>, i: nat, j: nat)
    requires ConfigValid(config, env)
    requires i < j < |Run(FirstBoot(config, now), codec, env, commands).store.trace|
    ensures var trace := Run(FirstBoot(config, now), codec, env, commands).store.trace;
            trace[i].Ledgered? && trace[i].status == Succeeded && !trace[j].Audited? ==> trace[j].key != trace[i].key
  {
    FirstBootInv(config, codec, env, now);
    RunsKeepInv(FirstBoot(config, now), codec, env, commands);
    var trace := Run(FirstBoot(config, now), codec, env, commands).store.trace;
    if trace[i].Ledgered? && trace[i].status == Succeeded {
      SuccessIsTerminal(codec, trace, trace[i].key, i, j);
    }
  }

  /** Over every run, every execution comes right after its ledger entry and its audit announcement, for a key that
      carries the hash of the very action executed; and the announcement is in the log. */
  lemma ExecutionsAnnounced(config: Config, codec: Codec, env: Surroundings, now: int, commands: seq<Command>, j: nat)
    requires ConfigValid(config, env)
    requires var trace := Run(FirstBoot(config, now), codec, env, commands).store.trace; j < |trace| && trace[j].Executed?
    ensures Announced(Run(FirstBoot(config, now), codec, env, commands).store, codec, j)
  {
    FirstBootInv(config, codec, env, now);
    RunsKeepInv(FirstBoot(config, now), codec, env, commands);
    ExecutionIsAnnounced(Run(FirstBoot(config, now), codec, env, commands).store, codec, j);
  }

  /** In every reachable state the log holds exactly the audited entries in their order, and the retained rows end the log
      and verify from the stored anchor. */
  lemma AuditAlwaysVerifies(config: Config, codec: Codec, env: Surroundings, now: int, commands: seq<Command>)
    requires ConfigValid(config, env)
    ensures var st := Run(FirstBoot(config, now), codec, env, commands).store;
            && Represents(st.tables, codec.hasher, st.log) && EntriesOf(st.log) == AuditedOf(st.trace)
            && Chain(codec.hasher, Anchor(codec.hasher, st.tables), st.tables.rows)
  {
    FirstBootInv(config, codec, env, now);
    RunsKeepInv(FirstBoot(config, now), codec, env, commands);
    var st := Run(FirstBoot(config, now), codec, env, commands).store;
    RepresentsVerifies(st.tables, codec.hasher, st.log);
  }

  // ---------------------------------------------------------------- plans against the executor

  lemma {:induction false} PlanFromReactions(reactions: seq<Reaction>, p: ActionPlan)
    requires p in AllPlans(reactions)
    ensures exists i | 0 <= i < |reactions| :: p in reactions[i].plans
  {
    var n := |reactions| - 1;
    if p !in reactions[n].plans {
      PlanFromReactions(reactions[..n], p);
      var i :| 0 <= i < n && p in reactions[..n][i].plans;
      assert p in reactions[i].plans;
    }
  }

  lemma ReactionActions(rule: Rule, rt: RuleRuntime, event: Event, holds: bool, p: ActionPlan)
    requires p in RuleStep(rule, rt, event, holds).plans
    ensures p.action in rule.actions || p.action.Notify?
  {
    if event.kind.SensorFailure? {
      FilterMembers(PermittedWhenFailing, rule.actions, p.action);
    }
  }

  /** A planned action is one of a rule in force, or the built-in alert. */
  lemma PlanOrigin(s: EngineState, event: Event, host: Host, p: ActionPlan)
    requires InForce(s) && p in HandlePlan(s, event, host)
    ensures p.action.Notify? || exists rule | rule in s.rules :: p.action in rule.actions
  {
    EngineRuns.CandidatesNeedNoSort(s, event, host);
    SurvivorsComeFromCandidates(Candidates(s, event, host), p);
    PlanFromReactions(Reactions(s, event, host), p);
    var i :| 0 <= i < |s.rules| && p in Reactions(s, event, host)[i].plans;
    ReactionActions(s.rules[i], CarriedOver(s.runtime, s.rules[i].id), event,
                    Holds(s.rules[i], ApplyEvent(s.snapshot, event), host), p);
  }

  /** In every reachable state, whatever was reloaded or refused, no planned action is turned away by the executor, and
      every program it plans to run has its digest pinned. */
  lemma PlansPassExecutor(config: Config, codec: Codec, env: Surroundings, now: int, commands: seq<Command>, event: Event,
                          host: Host, p: ActionPlan)
    requires ConfigValid(config, env)
    requires p in HandlePlan(Run(FirstBoot(config, now), codec, env, commands).engine, event, host)
    ensures Refuses(Run(FirstBoot(config, now), codec, env, commands).context, p.action).None?
    ensures p.action.Exec? ==> p.action.expectedSha256.Some? && ValidDigest(p.action.expectedSha256.value)
  {
    FirstBootInv(config, codec, env, now);
    RunsKeepInv(FirstBoot(config, now), codec, env, commands);
    ConsistentPlanPasses(Run(FirstBoot(config, now), codec, env, commands), env, event, host, p);
  }

  lemma ConsistentPlanPasses(s: RuntimeState, env: Surroundings, event: Event, host: Host, p: ActionPlan)
    requires Consistent(s, env) && p in HandlePlan(s.engine, event, host)
    ensures Refuses(s.context, p.action).None?
    ensures p.action.Exec? ==> p.action.expectedSha256.Some? && ValidDigest(p.action.expectedSha256.value)
    ensures p.action.SetMode? ==> p.action.mode in ModeNames(s.config.modes)
  {
    PlanOrigin(s.engine, event, host, p);
    if !p.action.Notify? {
      var rule :| rule in s.engine.rules && p.action in rule.actions;
      ConfiguredActionPasses(s.config, env, rule, p.action);
    }
  }

  lemma ConfiguredActionPasses(config: Config, env: Surroundings, rule: Rule, action: ActionSpec)
    requires ConfigValid(config, env) && rule in config.rules && action in rule.actions
    ensures Refuses(ExecutorFor(config), action).None?
    ensures action.Exec? ==> action.expectedSha256.Some? && ValidDigest(action.expectedSha256.value)
    ensures action.SetMode? ==> action.mode in ModeNames(config.modes)
  {
    ValidatedActionPasses(config, env, rule, action);
    assert RuleValid(rule, config, env);
  }

  // ---------------------------------------------------------------- the security mode

  /** The mode is one the configuration declares, unless it declares none. */
  predicate ModeKnown(s: RuntimeState) {
    s.config.modes == [] || s.engine.snapshot.mode in ModeNames(s.config.modes)
  }

  lemma EventsKeepMode(s: Snapshot, event: Event)
    ensures ApplyEvent(s, event).mode == s.mode
  {
  }

  lemma {:induction false} PlansSetKnownModes(s: RuntimeState, codec: Codec, event: Event, plans: seq<ActionPlan>, ios: nat -> PlanIo)
    requires ModeKnown(s)
    requires forall p | p in plans && p.action.SetMode? :: p.action.mode in ModeNames(s.config.modes)
    ensures ModeKnown(ExecutePlans(s, codec, event, plans, ios).0)
  {
    if plans != [] {
      var n := |plans| - 1;
      PlansKeepSetup(s, codec, event, plans[..n], ios);
      PlansSetKnownModes(s, codec, event, plans[..n], ios);
      PlanSetsKnownMode(ExecutePlans(s, codec, event, plans[..n], ios).0, codec, event, plans[n], ios(n));
    }
  }

  lemma PlanSetsKnownMode(s: RuntimeState, codec: Codec, event: Event, plan: ActionPlan, io: PlanIo)
    requires ModeKnown(s) && (plan.action.SetMode? ==> plan.action.mode in ModeNames(s.config.modes))
    ensures ModeKnown(ExecutePlan(s, codec, event, plan, io).0)
  {
    var (st, ending) := RunPlan(s.store, codec, s.context, event, plan, io);
    OutcomeOfPlan(s.store, codec, s.context, event, plan, io);
    EndingSetsKnownMode(s.(store := st), ending, io.effectFails);
  }

  /** A plan can only end in the mode its own action names. */
  lemma OutcomeOfPlan(st: Store, codec: Codec, context: ExecutionContext, event: Event, plan: ActionPlan, io: PlanIo)
    ensures var ending := RunPlan(st, codec, context, event, plan, io).1;
            ending.Ended? && ending.outcome.Outcome? && ending.outcome.effect.ModeSet? ==>
              plan.action == ActionSpec.SetMode(ending.outcome.effect.mode)
  {
  }

  lemma EndingSetsKnownMode(s: RuntimeState, ending: Ending, fails: bool)
    requires ModeKnown(s)
    requires ending.Ended? && ending.outcome.Outcome? && ending.outcome.effect.ModeSet? ==>
               ending.outcome.effect.mode in ModeNames(s.config.modes)
    ensures ModeKnown(AfterEnding(s, ending, fails).0)
  {
  }

  lemma {:induction false} FirstInitialIsDeclared(modes: seq<ModeConfig>, default: string)
    ensures FirstInitial(modes, default) == default || FirstInitial(modes, default) in ModeNames(modes)
  {
    if modes != [] && !modes[0].initial {
      FirstInitialIsDeclared(modes[1..], default);
    }
  }

  lemma BootModeKnown(store: Store, config: Config, now: int)
    ensures ModeKnown(Boot(store, config, now))
  {
    if config.modes != [] {
      FirstInitialIsDeclared(config.modes, config.modes[0].name);
      assert config.modes[0].name in ModeNames(config.modes);
    }
  }

  /** Every command but a reload keeps the mode a declared one. A reload that is adopted does so exactly when the new
      configuration declares the current mode or none: it is not re-checked. */
  lemma ModeKnownExact(s: RuntimeState, codec: Codec, env: Surroundings, command: Command)
    requires Consistent(s, env) && ModeKnown(s)
    ensures ModeKnown(Next(s, codec, env, command)) <==>
            (command.Reload? && command.available && ConfigValid(command.config, env) ==>
               command.config.modes == [] || s.engine.snapshot.mode in ModeNames(command.config.modes))
  {
    match command
    case Process(event, host, io, ios) => ProcessKeepsMode(s, codec, env, event, host, io, ios);
    case SetMode(_, _, _, _) =>
    case Recovery(_, _, _, _) =>
    case Reload(_, _, _, _) =>
    case Restart(config, _, now) => BootModeKnown(s.store, config, now);
    case Announce(_, _, _) =>
  }

  lemma ProcessKeepsMode(s: RuntimeState, codec: Codec, env: Surroundings, event: Event, host: Host, io: Io, ios: nat -> PlanIo)
    requires Consistent(s, env) && ModeKnown(s)
    ensures ModeKnown(ProcessEvent(s, codec, event, host, io, ios))
  {
    var (st, ok) := LogEntry(s.store, codec, EventEntry(codec, event), io);
    if ok {
      var plans := HandlePlan(s.engine, event, host);
      forall p | p in plans { ConsistentPlanPasses(s, env, event, host, p); }
      EventsKeepMode(s.engine.snapshot, event);
      PlansSetKnownModes(s.(store := st, engine := HandleState(s.engine, event, host)), codec, event, plans, ios);
    }
  }

  lemma LoggingKeepsSettings(st: Store, codec: Codec, entry: Entry, io: Io, key: string)
    requires key != ANCHOR_KEY
    ensures var next := LogEntry(st, codec, entry, io).0;
            (key in next.tables.state <==> key in st.tables.state) &&
            (key in st.tables.state ==> next.tables.state[key] == st.tables.state[key])
  {
  }

  /** A mode or recovery setting that was stored comes back after a restart: the mode if the new configuration still
      declares it, recovery always. */
  lemma SettingsSurviveRestart(s: RuntimeState, codec: Codec, mode: string, enabled: bool, note: string, io: Io,
                               config: Config, now: int)
    requires mode in ModeNames(s.config.modes) && (config.modes == [] || mode in ModeNames(config.modes))
    ensures Boot(ChangeMode(s, codec, mode, false, note, io).store, config, now).engine.snapshot.mode == mode
    ensures Boot(ChangeRecovery(s, codec, enabled, false, note, io).store, config, now).engine.recovery == enabled
  {
    KeysAreNotTheAnchor();
    LoggingKeepsSettings(Put(s.store, MODE_KEY, mode, false).0, codec, Entry(None, "mode_changed", None, note), io, MODE_KEY);
    LoggingKeepsSettings(Put(s.store, RECOVERY_KEY, Flag(enabled), false).0, codec,
                         Entry(None, "recovery_mode_changed", None, note), io, RECOVERY_KEY);
    assert Flag(false)[0] != Flag(true)[0];
  }
}
