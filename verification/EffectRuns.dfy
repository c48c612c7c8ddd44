/** What start-up, requests, events and actions do to the daemon and its stored settings, said without the functions that
    compute it. */
module EffectRuns {
  import opened Options
  import opened Encoding
  import opened Config
  import opened Events
  import opened Matching
  import opened RuleRuntimes
  import opened Engine
  import opened Validation
  import opened Executor
  import opened Audit
  import opened Ledger
  import opened Runtime
  import opened RuntimeRuns

  function Lookup(t: Tables, key: string): Option<string> {
    if key in t.state then Some(t.state[key]) else None
  }

  // ---------------------------------------------------------------- stored settings

  lemma KeysDiffer()
    ensures "mode" != "network_isolated" && "mode" != "recovery_mode" && "network_isolated" != "recovery_mode"
    ensures "mode" != ANCHOR_KEY && "network_isolated" != ANCHOR_KEY && "recovery_mode" != ANCHOR_KEY
  {
    assert |"mode"| == 4 && |"network_isolated"| == 16 && |"recovery_mode"| == 13 && |ANCHOR_KEY| == 12;
  }

  lemma LogKeepsSettings(st: Store, codec: Codec, entry: Entry, io: Io, key: string)
    requires key != ANCHOR_KEY
    ensures Lookup(LogEntry(st, codec, entry, io).0.tables, key) == Lookup(st.tables, key)
  {
  }

  lemma ConcludeKeepsSettings(st: Store, codec: Codec, ledgerKey: LedgerKey, outcome: Outcome, io: PlanIo, key: string)
    requires key != ANCHOR_KEY
    ensures Lookup(Conclude(st, codec, ledgerKey, outcome, io).0.tables, key) == Lookup(st.tables, key)
  {
    var recorded := Record(st, ledgerKey, StatusOf(outcome), io.recordFails).0;
    LogKeepsSettings(recorded, codec, ConcludedEntry(codec, ledgerKey, outcome), io.conclude, key);
  }

  lemma RunKeepsSettings(st: Store, codec: Codec, context: ExecutionContext, event: Event, plan: ActionPlan, io: PlanIo, key: string)
    requires key != ANCHOR_KEY
    ensures Lookup(RunPlan(st, codec, context, event, plan, io).0.tables, key) == Lookup(st.tables, key)
  {
    var ledgerKey := KeyFor(codec, event, plan);
    var started := Record(st, ledgerKey, Started, io.startFails).0;
    var announced := LogEntry(started, codec, StartedEntry(codec, ledgerKey, plan.action), io.announce).0;
    LogKeepsSettings(started, codec, StartedEntry(codec, ledgerKey, plan.action), io.announce, key);
    ConcludeKeepsSettings(Ran(announced, ledgerKey, plan.action), codec, ledgerKey, Execute(context, plan.action, io.answer), io, key);
  }

  // ---------------------------------------------------------------- the effect of an action

  /** The plan ran to its end, not as a dry run, and reported success. */
  predicate ReallySucceeded(s: RuntimeState, ending: Ending) {
    ending.Ended? && ending.outcome.Outcome? && ending.outcome.success && !s.context.dryRun
  }

  lemma EndingEffect(s: RuntimeState, ending: Ending, action: ActionSpec, answer: Answer, fails: bool)
    requires ending.Ended? ==> ending.outcome == Execute(s.context, action, answer)
    ensures var t, genuine := AfterEnding(s, ending, fails).0, ReallySucceeded(s, ending);
            && t.engine == (if genuine && action.SetMode?
                            then s.engine.(snapshot := s.engine.snapshot.(mode := action.mode)) else s.engine)
            && t.store.tables.state ==
                 (if genuine && !fails && action.SetMode? then s.store.tables.state["mode" := action.mode]
                  else if genuine && !fails && action.NetworkIsolation?
                  then s.store.tables.state["network_isolated" := if action.enabled then "true" else "false"]
                  else s.store.tables.state)
  {
  }

  /** Executing a plan changes the mode exactly when a mode action really succeeds, and then to the mode it names; it stores
      that mode, or whether the network is isolated, exactly when the action really succeeds and storage holds; a dry run, a
      failure or a refusal changes neither. */
  lemma PlanEffectExact(s: RuntimeState, codec: Codec, event: Event, plan: ActionPlan, io: PlanIo)
    ensures var t, action := ExecutePlan(s, codec, event, plan, io).0, plan.action;
            var genuine := ReallySucceeded(s, RunPlan(s.store, codec, s.context, event, plan, io).1);
            && t.engine.snapshot.mode == (if genuine && action.SetMode? then action.mode else s.engine.snapshot.mode)
            && Lookup(t.store.tables, "mode") ==
                 (if genuine && action.SetMode? && !io.effectFails then Some(action.mode) else Lookup(s.store.tables, "mode"))
            && Lookup(t.store.tables, "network_isolated") ==
                 (if genuine && action.NetworkIsolation? && !io.effectFails
                  then Some(if action.enabled then "true" else "false") else Lookup(s.store.tables, "network_isolated"))
            && Lookup(t.store.tables, "recovery_mode") == Lookup(s.store.tables, "recovery_mode")
  {
    var (st, ending) := RunPlan(s.store, codec, s.context, event, plan, io);
    KeysDiffer();
    PlanTraceExact(s.store, codec, s.context, event, plan, io);
    EndingEffect(s.(store := st), ending, plan.action, io.answer, io.effectFails);
    RunKeepsSettings(s.store, codec, s.context, event, plan, io, "mode");
    RunKeepsSettings(s.store, codec, s.context, event, plan, io, "network_isolated");
    RunKeepsSettings(s.store, codec, s.context, event, plan, io, "recovery_mode");
  }

  // ---------------------------------------------------------------- start-up

  lemma {:induction false} FirstInitialExact(modes: seq<ModeConfig>, default: string)
    ensures forall i | 0 <= i < |modes| && modes[i].initial && (forall k | 0 <= k < i :: !modes[k].initial) ::
              FirstInitial(modes, default) == modes[i].name
    ensures (forall k | 0 <= k < |modes| :: !modes[k].initial) ==> FirstInitial(modes, default) == default
  {
    if modes != [] && !modes[0].initial {
      FirstInitialExact(modes[1..], default);
      assert forall i | 0 < i < |modes| :: modes[i] == modes[1..][i - 1];
    }
  }

  /** A daemon starts in the stored mode if that is still declared or no modes are; otherwise in the mode marked initial,
      without one in the first, and without any in "normal". */
  lemma StartModeExact(store: Store, config: Config, now: int)
    requires ModesValid(config.modes)
    ensures var mode, modes, stored := Boot(store, config, now).engine.snapshot.mode, config.modes, Lookup(store.tables, "mode");
            if stored.Some? && (modes == [] || exists i | 0 <= i < |modes| :: modes[i].name == stored.value) then mode == stored.value
            else && (modes == [] ==> mode == "normal")
                 && (forall i | 0 <= i < |modes| && modes[i].initial :: mode == modes[i].name)
                 && (modes != [] && (forall i | 0 <= i < |modes| :: !modes[i].initial) ==> mode == modes[0].name)
  {
    if config.modes != [] {
      FirstInitialExact(config.modes, config.modes[0].name);
    }
  }

  /** It starts in recovery exactly when that was stored, with every rule fresh, on the stored tables under the configured
      limit. */
  lemma StartFresh(store: Store, config: Config, now: int)
    ensures var t := Boot(store, config, now).store;
            t.tables == store.tables && t.log == store.log && t.trace == store.trace && t.maxRecords == config.maxRecords
    ensures var e := Boot(store, config, now).engine;
            && (e.recovery <==> Lookup(store.tables, "recovery_mode") == Some("true"))
            && e.runtime.Keys == Ids(config.rules) && forall id | id in e.runtime :: e.runtime[id] == FRESH
  {
  }

  // ---------------------------------------------------------------- requests

  /** The log after an attempt to append an entry: longer by it, or the same. */
  predicate Noted(before: Store, after: Store, kind: string, note: string) {
    || after.log == before.log
    || (|after.log| == |before.log| + 1 && after.log[..|before.log|] == before.log &&
        after.log[|before.log|].entry == Entry(None, kind, None, note))
  }

  /** A mode request is refused, without a trace, exactly when the mode is not declared; otherwise the engine is in it at
      once, and it is stored unless storage fails. Rules, their runtimes and recovery stay as they are. */
  lemma ModeRequestExact(s: RuntimeState, codec: Codec, mode: string, fails: bool, note: string, io: Io)
    ensures var t := ChangeMode(s, codec, mode, fails, note, io);
            if forall m | m in s.config.modes :: m.name != mode then t == s
            else && t.engine == s.engine.(snapshot := s.engine.snapshot.(mode := mode)) && t.config == s.config
                 && Lookup(t.store.tables, "mode") == (if fails then Lookup(s.store.tables, "mode") else Some(mode))
                 && Lookup(t.store.tables, "recovery_mode") == Lookup(s.store.tables, "recovery_mode")
                 && Noted(s.store, t.store, "mode_changed", note)
  {
    KeysDiffer();
    var st := Put(s.store, MODE_KEY, mode, fails).0;
    LogKeepsSettings(st, codec, Entry(None, "mode_changed", None, note), io, "mode");
    LogKeepsSettings(st, codec, Entry(None, "mode_changed", None, note), io, "recovery_mode");
  }

  /** A recovery request takes effect at once and is stored unless storage fails; the mode and the snapshot stay. */
  lemma RecoveryRequestExact(s: RuntimeState, codec: Codec, enabled: bool, fails: bool, note: string, io: Io)
    ensures var t := ChangeRecovery(s, codec, enabled, fails, note, io);
            && t.engine.recovery == enabled && t.engine.snapshot == s.engine.snapshot && t.config == s.config
            && (!enabled ==> t.engine.runtime == s.engine.runtime)
            && Lookup(t.store.tables, "recovery_mode") ==
                 (if fails then Lookup(s.store.tables, "recovery_mode") else Some(if enabled then "true" else "false"))
            && Lookup(t.store.tables, "mode") == Lookup(s.store.tables, "mode")
            && Noted(s.store, t.store, "recovery_mode_changed", note)
  {
    KeysDiffer();
    var st := Put(s.store, RECOVERY_KEY, Flag(enabled), fails).0;
    LogKeepsSettings(st, codec, Entry(None, "recovery_mode_changed", None, note), io, "mode");
    LogKeepsSettings(st, codec, Entry(None, "recovery_mode_changed", None, note), io, "recovery_mode");
  }

  /** A reload that cannot be read or is not valid changes nothing. Any other brings its rules, its executor and itself
      into force at once, with the runtimes of the rules it keeps and fresh ones for the rest; the snapshot, recovery and the
      retention limit stay as they were. */
  lemma ReloadExact(s: RuntimeState, codec: Codec, env: Surroundings, config: Config, available: bool, note: string, io: Io)
    ensures var t := Next(s, codec, env, Command.Reload(config, available, note, io));
            if !available || !ConfigValid(config, env) then t == s
            else && t.config == config && t.context == ExecutorFor(config)
                 && (forall r :: r in t.engine.rules <==> r in config.rules)
                 && t.engine.snapshot == s.engine.snapshot && t.engine.recovery == s.engine.recovery
                 && t.engine.runtime.Keys == Ids(config.rules)
                 && (forall id | id in t.engine.runtime ::
                       t.engine.runtime[id] == if id in s.engine.runtime then s.engine.runtime[id] else FRESH)
                 && t.store.maxRecords == s.store.maxRecords && Noted(s.store, t.store, "configuration_reloaded", note)
  {
    if available && ConfigValid(config, env) {
      SortedRules(config.rules);
    }
  }

  // ---------------------------------------------------------------- the order of executions

  /** The executions of a trace, in order. */
  function ExecutedOf(trace: seq<Effect>): seq<(LedgerKey, ActionSpec)> {
    if trace == [] then []
    else
      var last := trace[|trace| - 1];
      ExecutedOf(trace[..|trace| - 1]) + (if last.Executed? then [(last.key, last.action)] else [])
  }

  lemma {:induction false} ExecutedConcat(a: seq<Effect>, b: seq<Effect>)
    ensures ExecutedOf(a + b) == ExecutedOf(a) + ExecutedOf(b)
  {
    if b == [] {
      assert a + b == a;
    } else {
      assert (a + b)[..|a + b| - 1] == a + b[..|b| - 1];
      ExecutedConcat(a, b[..|b| - 1]);
    }
  }

  lemma ExecutedMore(trace: seq<Effect>, effect: Effect)
    ensures ExecutedOf(trace + [effect]) == ExecutedOf(trace) + (if effect.Executed? then [(effect.key, effect.action)] else [])
  {
    assert (trace + [effect])[..|trace|] == trace;
  }

  lemma {:induction false} ExecutedInFull(codec: Codec, key: LedgerKey, action: ActionSpec, outcome: Outcome, k: nat)
    requires k <= 5
    ensures ExecutedOf(FullTrace(codec, key, action, outcome)[..k]) == if k >= 3 then [(key, action)] else []
  {
    var full := FullTrace(codec, key, action, outcome);
    if k > 0 {
      ExecutedInFull(codec, key, action, outcome, k - 1);
      ExecutedMore(full[..k - 1], full[k - 1]);
      assert full[..k] == full[..k - 1] + [full[k - 1]];
    }
  }

  function KeyedAction(codec: Codec, event: Event, plan: ActionPlan): (LedgerKey, ActionSpec) {
    (LedgerKey(event.id, plan.ruleId, codec.digest(Utf8(codec.action(plan.action)))), plan.action)
  }

  /** One plan is executed once or not at all. */
  lemma PlanExecutesOnce(st: Store, codec: Codec, context: ExecutionContext, event: Event, plan: ActionPlan, io: PlanIo)
    returns (ran: bool)
    ensures ExecutedOf(RunPlan(st, codec, context, event, plan, io).0.trace) ==
            ExecutedOf(st.trace) + (if ran then [KeyedAction(codec, event, plan)] else [])
  {
    var key, outcome := KeyFor(codec, event, plan), Execute(context, plan.action, io.answer);
    var full := FullTrace(codec, key, plan.action, outcome);
    var (next, ending) := RunPlan(st, codec, context, event, plan, io);
    PlanTraceExact(st, codec, context, event, plan, io);
    var k: nat := 0;
    match ending {
      case Ended(_) => k := 5; assert full[..5] == full;
      case Skipped => assert st.trace + full[..0] == st.trace;
      case Stopped => k :| k < |full| && next.trace == st.trace + full[..k];
    }
    ExecutedConcat(st.trace, full[..k]);
    ExecutedInFull(codec, key, plan.action, outcome, k);
    ran := k >= 3;
  }

  ghost predicate Increasing(ran: seq<nat>, bound: nat) {
    (forall i | 0 <= i < |ran| :: ran[i] < bound) && (forall i, j | 0 <= i < j < |ran| :: ran[i] < ran[j])
  }

  function Picked(codec: Codec, event: Event, plans: seq<ActionPlan>, ran: seq<nat>): seq<(LedgerKey, ActionSpec)>
    requires forall i | 0 <= i < |ran| :: ran[i] < |plans|
  {
    seq(|ran|, i requires 0 <= i < |ran| => KeyedAction(codec, event, plans[ran[i]]))
  }

  lemma EndingKeepsTrace(s: RuntimeState, ending: Ending, fails: bool)
    ensures AfterEnding(s, ending, fails).0.store.trace == s.store.trace
  {
  }

  lemma OnePlanExecutes(s: RuntimeState, codec: Codec, event: Event, plan: ActionPlan, io: PlanIo) returns (ran: bool)
    ensures ExecutedOf(ExecutePlan(s, codec, event, plan, io).0.store.trace) ==
            ExecutedOf(s.store.trace) + (if ran then [KeyedAction(codec, event, plan)] else [])
  {
    var (st, ending) := RunPlan(s.store, codec, s.context, event, plan, io);
    ran := PlanExecutesOnce(s.store, codec, s.context, event, plan, io);
    EndingKeepsTrace(s.(store := st), ending, io.effectFails);
  }

  lemma PickedMore(codec: Codec, event: Event, plans: seq<ActionPlan>, ran: seq<nat>)
    requires plans != [] && Increasing(ran, |plans| - 1)
    ensures Increasing(ran, |plans|) && Increasing(ran + [|plans| - 1], |plans|)
    ensures Picked(codec, event, plans, ran) == Picked(codec, event, plans[..|plans| - 1], ran)
    ensures Picked(codec, event, plans, ran + [|plans| - 1]) ==
            Picked(codec, event, plans[..|plans| - 1], ran) + [KeyedAction(codec, event, plans[|plans| - 1])]
  {
  }

  /** The plans of an event are executed in their order, each at most once, under the event's and the rule's identifier and
      the action's own hash. */
  lemma {:induction false} PlansExecuteInOrder(s: RuntimeState, codec: Codec, event: Event, plans: seq<ActionPlan>, ios: nat -> PlanIo)
    returns (ran: seq<nat>)
    ensures Increasing(ran, |plans|)
    ensures ExecutedOf(ExecutePlans(s, codec, event, plans, ios).0.store.trace) ==
            ExecutedOf(s.store.trace) + Picked(codec, event, plans, ran)
  {
    ran := [];
    if plans != [] {
      var n := |plans| - 1;
      ran := PlansExecuteInOrder(s, codec, event, plans[..n], ios);
      PickedMore(codec, event, plans, ran);
      if ExecutePlans(s, codec, event, plans[..n], ios).1 {
        var more := OnePlanExecutes(ExecutePlans(s, codec, event, plans[..n], ios).0, codec, event, plans[n], ios(n));
        if more {
          ran := ran + [n];
        }
      }
    }
  }

  /** An event that cannot be recorded changes nothing at all. */
  lemma UnrecordedChangesNothing(s: RuntimeState, codec: Codec, event: Event, host: Host, io: Io, ios: nat -> PlanIo)
    requires !AppendSucceeds(s.store.tables, codec.hasher, Entry(Some(event.id), "event", None, codec.event(event)), io)
    ensures ProcessEvent(s, codec, event, host, io, ios) == s
  {
  }

  /** The state in which the plans of a recorded event are executed: the record is made and the engine has handled it. */
  function HandledState(s: RuntimeState, codec: Codec, event: Event, host: Host, io: Io): RuntimeState {
    s.(store := LogEntry(s.store, codec, EventEntry(codec, event), io).0, engine := HandleState(s.engine, event, host))
  }

  lemma RecordComesFirst(s: RuntimeState, codec: Codec, event: Event, host: Host, io: Io)
    requires AppendSucceeds(s.store.tables, codec.hasher, Entry(Some(event.id), "event", None, codec.event(event)), io)
    ensures var t, entry := HandledState(s, codec, event, host, io), Entry(Some(event.id), "event", None, codec.event(event));
            t.store.trace == s.store.trace + [Audited(entry)] && ExecutedOf(t.store.trace) == ExecutedOf(s.store.trace)
  {
    var entry := EventEntry(codec, event);
    ExecutedConcat(s.store.trace, [Audited(entry)]);
    assert [Audited(entry)][..0] == [];
  }

  /** Any other event is recorded before everything else, and then the engine's plan for it is executed, in order. */
  lemma ProcessExact(s: RuntimeState, codec: Codec, event: Event, host: Host, io: Io, ios: nat -> PlanIo) returns (ran: seq<nat>)
    requires AppendSucceeds(s.store.tables, codec.hasher, Entry(Some(event.id), "event", None, codec.event(event)), io)
    ensures var entry := Entry(Some(event.id), "event", None, codec.event(event));
            var t, plans := ProcessEvent(s, codec, event, host, io, ios), HandlePlan(s.engine, event, host);
            && s.store.trace + [Audited(entry)] <= t.store.trace && Increasing(ran, |plans|)
            && ExecutedOf(t.store.trace) == ExecutedOf(s.store.trace) + Picked(codec, event, plans, ran)
            && t.engine.runtime == HandleState(s.engine, event, host).runtime
  {
    var handled, plans := HandledState(s, codec, event, host, io), HandlePlan(s.engine, event, host);
    RecordComesFirst(s, codec, event, host, io);
    assert ProcessEvent(s, codec, event, host, io, ios) == ExecutePlans(handled, codec, event, plans, ios).0;
    ran := PlansExecuteInOrder(handled, codec, event, plans, ios);
    PlansKeepSetup(handled, codec, event, plans, ios);
    PlansExtendTrace(handled, codec, event, plans, ios);
  }

  lemma PlanExtendsTrace(st: Store, codec: Codec, context: ExecutionContext, event: Event, plan: ActionPlan, io: PlanIo)
    ensures st.trace <= RunPlan(st, codec, context, event, plan, io).0.trace
  {
    PlanTraceExact(st, codec, context, event, plan, io);
  }

  lemma {:induction false} PlansExtendTrace(s: RuntimeState, codec: Codec, event: Event, plans: seq<ActionPlan>, ios: nat -> PlanIo)
    ensures s.store.trace <= ExecutePlans(s, codec, event, plans, ios).0.store.trace
  {
    if plans != [] {
      var n := |plans| - 1;
      PlansExtendTrace(s, codec, event, plans[..n], ios);
      var (t, ok) := ExecutePlans(s, codec, event, plans[..n], ios);
      if ok {
        var (st, ending) := RunPlan(t.store, codec, t.context, event, plans[n], ios(n));
        PlanExtendsTrace(t.store, codec, t.context, event, plans[n], ios(n));
        EndingKeepsTrace(t.(store := st), ending, ios(n).effectFails);
      }
    }
  }
}
