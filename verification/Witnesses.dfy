/** Concrete runs of the daemon, from its first start on valid configurations, in which an expectation fails. */
module Witnesses {
  import opened Options
  import opened Ordering
  import opened Config
  import opened Events
  import opened Matching
  import opened RuleRuntimes
  import opened Engine
  import EngineRuns
  import opened Validation
  import opened Audit
  import opened Ledger
  import opened Runtime
  import opened RuntimeRuns

  // ---------------------------------------------------------------- valid configurations

  const DAEMON := DaemonConfig(Path(true, ["s"]), Path(true, ["d"]), false, 1, 16, [], [])

  function ConfigWith(modes: seq<ModeConfig>, rules: seq<Rule>): Config {
    Config(1, DAEMON, 0, modes, [], [], rules)
  }

  function TickRule(trigger: TriggerSpec, actions: seq<ActionSpec>): Rule {
    Rule("r", true, 0, 0, 0, false, SensorFailurePolicy.Ignore, trigger, None, actions)
  }

  lemma NoModesValid(rule: Rule, env: Surroundings)
    requires ValidIdentifier(rule.id) && rule.actions != [] && TriggerValid(rule.trigger, 0, {}) && rule.when.None?
    requires forall a | a in rule.actions :: ActionValid(a, DAEMON, {}, {})
    ensures ConfigValid(ConfigWith([], [rule]), env)
  {
    var config := ConfigWith([], [rule]);
    assert VaultNames(config.vaults) == {} && ModeNames(config.modes) == {} && HotkeyNames(config.hotkeys) == {};
    assert RuleValid(rule, config, env);
  }

  lemma OneModeValid(name: string, env: Surroundings)
    requires ValidIdentifier(name)
    ensures ConfigValid(ConfigWith([ModeConfig(name, true)], []), env)
  {
    assert NamesValid([ModeConfig(name, true)]);
  }

  // ---------------------------------------------------------------- a reload that faults

  /** A rule that waits for so many ticks in a row. */
  function Ticks(n: nat): Rule {
    TickRule(TriggerSpec.Sequence(seq(n, _ => TriggerSpec.Tick), 1), [ActionSpec.Notify("", "", Normal)])
  }

  function TickEvent(id: string): Event {
    Event(id, 0, "time", EventKind.Tick)
  }

  lemma TicksValid(n: nat, env: Surroundings)
    requires n >= 2
    ensures ConfigValid(ConfigWith([], [Ticks(n)]), env)
  {
    NoModesValid(Ticks(n), env);
  }

  /** The runtime of the three-tick rule after `n` of them. */
  function Ticked(n: nat): RuleRuntime {
    if n == 0 then FRESH else FRESH.(progress := Progress(n, Some(0)))
  }

  ghost predicate Counting(e: EngineState, n: nat) {
    e.rules == [Ticks(3)] && !e.recovery && e.runtime == map["r" := Ticked(n)]
  }

  lemma TickAdvances(n: nat, id: string, holds: bool)
    requires n < 2
    ensures RuleStep(Ticks(3), Ticked(n), TickEvent(id), holds) == Reaction(Ticked(n + 1), [], false)
  {
    assert Ticks(3).trigger.steps[n] == TriggerSpec.Tick;
  }

  lemma EngineTickAdvances(e: EngineState, n: nat, id: string, host: Host)
    requires Counting(e, n) && n < 2
    ensures Counting(HandleState(e, TickEvent(id), host), n + 1)
    ensures Candidates(e, TickEvent(id), host) == []
  {
    var event := TickEvent(id);
    TickAdvances(n, id, Holds(Ticks(3), ApplyEvent(e.snapshot, event), host));
    assert RuleOf(e.rules, "r") == Some(Ticks(3));
    assert HandleState(e, event, host).runtime == map["r" := Ticked(n + 1)];
    var reactions := Reactions(e, event, host);
    assert reactions[..0] == [] && AllPlans(reactions[..0]) == [];
  }

  /** Processing a tick that can be recorded moves the daemon's engine and executes nothing. */
  lemma ProcessTick(s: RuntimeState, codec: Codec, n: nat, id: string, host: Host, io: Io, ios: nat -> PlanIo)
    requires Counting(s.engine, n) && n < 2 && AppendSucceeds(s.store.tables, codec.hasher, EventEntry(codec, TickEvent(id)), io)
    ensures var t := ProcessEvent(s, codec, TickEvent(id), host, io, ios);
            && Counting(t.engine, n + 1) && t.config == s.config
            && t.store == LogEntry(s.store, codec, EventEntry(codec, TickEvent(id)), io).0
  {
    EngineTickAdvances(s.engine, n, id, host);
  }

  lemma ShorterFaults(e: EngineState, id: string)
    requires Counting(e, 2)
    ensures !FaultFree(WithRules(e, [Ticks(2)]), TickEvent(id))
  {
    var t := WithRules(e, [Ticks(2)]);
    SortKeepsSorted(RuleLe, [Ticks(2)]);
    assert Ticks(2) in t.rules && "r" in Ids([Ticks(2)]);
    assert RuleFaults(Ticks(2), t.runtime["r"], TickEvent(id));
  }

  lemma BootCounts()
    ensures var s := FirstBoot(ConfigWith([], [Ticks(3)]), 0);
            Counting(s.engine, 0) && s.store.tables == EMPTY && s.store.maxRecords == 0
  {
    SortKeepsSorted(RuleLe, [Ticks(3)]);
    assert Ids([Ticks(3)]) == {"r"};
  }

  lemma RunOneMore(s: RuntimeState, codec: Codec, env: Surroundings, commands: seq<Command>, command: Command)
    ensures Run(s, codec, env, commands + [command]) == Next(Run(s, codec, env, commands), codec, env, command)
  {
    assert (commands + [command])[..|commands|] == commands;
  }

  /** No record hashes to the hash before it. */
  ghost predicate MovesOn(hasher: Hasher) {
    forall previous, timestamp, entry :: hasher.hash(previous, timestamp, entry) != previous
  }

  lemma SecondAppendSucceeds(st: Store, codec: Codec, entry: Entry, next: Entry, io: Io, later: Io)
    requires MovesOn(codec.hasher) && st.tables == EMPTY && st.maxRecords == 0 && !io.fails && !later.fails
    ensures AppendSucceeds(st.tables, codec.hasher, entry, io)
    ensures AppendSucceeds(LogEntry(st, codec, entry, io).0.tables, codec.hasher, next, later)
  {
  }

  function TwoTicks(host: Host, io: Io, later: Io, ios: nat -> PlanIo): seq<Command> {
    [Command.Process(TickEvent("a"), host, io, ios)] + [Command.Process(TickEvent("b"), host, later, ios)]
  }

  lemma OneMoreTick(s: RuntimeState, codec: Codec, env: Surroundings, commands: seq<Command>, n: nat, id: string, host: Host,
                    io: Io, ios: nat -> PlanIo)
    requires var t := Run(s, codec, env, commands);
             Counting(t.engine, n) && AppendSucceeds(t.store.tables, codec.hasher, EventEntry(codec, TickEvent(id)), io)
    requires n < 2
    ensures var t := Run(s, codec, env, commands + [Command.Process(TickEvent(id), host, io, ios)]);
            && Counting(t.engine, n + 1)
            && t.store == LogEntry(Run(s, codec, env, commands).store, codec, EventEntry(codec, TickEvent(id)), io).0
  {
    RunOneMore(s, codec, env, commands, Command.Process(TickEvent(id), host, io, ios));
    ProcessTick(Run(s, codec, env, commands), codec, n, id, host, io, ios);
  }

  lemma FirstTickCounted(s: RuntimeState, codec: Codec, env: Surroundings, host: Host, io: Io, ios: nat -> PlanIo)
    requires Counting(s.engine, 0) && s.store.tables == EMPTY && !io.fails
    ensures var t := Run(s, codec, env, [Command.Process(TickEvent("a"), host, io, ios)]);
            Counting(t.engine, 1) && t.store == LogEntry(s.store, codec, EventEntry(codec, TickEvent("a")), io).0
  {
    var first := Command.Process(TickEvent("a"), host, io, ios);
    assert [] + [first] == [first];
    OneMoreTick(s, codec, env, [], 0, "a", host, io, ios);
  }

  lemma TicksCountedFrom(s: RuntimeState, codec: Codec, env: Surroundings, host: Host, io: Io, later: Io, ios: nat -> PlanIo)
    requires Counting(s.engine, 0) && s.store.tables == EMPTY && s.store.maxRecords == 0
    requires MovesOn(codec.hasher) && !io.fails && !later.fails
    ensures Counting(Run(s, codec, env, TwoTicks(host, io, later, ios)).engine, 2)
  {
    SecondAppendSucceeds(s.store, codec, EventEntry(codec, TickEvent("a")), EventEntry(codec, TickEvent("b")), io, later);
    FirstTickCounted(s, codec, env, host, io, ios);
    OneMoreTick(s, codec, env, [Command.Process(TickEvent("a"), host, io, ios)], 1, "b", host, later, ios);
  }

  lemma TwoTicksCounted(codec: Codec, env: Surroundings, host: Host, io: Io, later: Io, ios: nat -> PlanIo)
    requires MovesOn(codec.hasher) && !io.fails && !later.fails
    ensures Counting(Run(FirstBoot(ConfigWith([], [Ticks(3)]), 0), codec, env, TwoTicks(host, io, later, ios)).engine, 2)
  {
    BootCounts();
    TicksCountedFrom(FirstBoot(ConfigWith([], [Ticks(3)]), 0), codec, env, host, io, later, ios);
  }

  lemma ReloadFaults(s: RuntimeState, codec: Codec, env: Surroundings, note: string, io: Io, id: string)
    requires Counting(s.engine, 2)
    ensures ConfigValid(ConfigWith([], [Ticks(2)]), env)
    ensures !FaultFree(Next(s, codec, env, Command.Reload(ConfigWith([], [Ticks(2)]), true, note, io)).engine, TickEvent(id))
  {
    TicksValid(2, env);
    ShorterFaults(s.engine, id);
  }

  /** A valid three-step configuration, two recorded ticks, and a reload of a valid two-step one: the next tick makes the
      daemon index out of range. */
  lemma ReloadCanFault(codec: Codec, env: Surroundings, host: Host, io: Io, later: Io, ios: nat -> PlanIo, note: string, last: Io)
    requires MovesOn(codec.hasher) && !io.fails && !later.fails
    ensures var long, short := ConfigWith([], [Ticks(3)]), ConfigWith([], [Ticks(2)]);
            var commands := TwoTicks(host, io, later, ios) + [Command.Reload(short, true, note, last)];
            && ConfigValid(long, env) && ConfigValid(short, env)
            && !FaultFree(Run(FirstBoot(long, 0), codec, env, commands).engine, TickEvent("c"))
  {
    TicksValid(3, env);
    TwoTicksCounted(codec, env, host, io, later, ios);
    var s, ticks := FirstBoot(ConfigWith([], [Ticks(3)]), 0), TwoTicks(host, io, later, ios);
    RunOneMore(s, codec, env, ticks, Command.Reload(ConfigWith([], [Ticks(2)]), true, note, last));
    ReloadFaults(Run(s, codec, env, ticks), codec, env, note, last, "c");
  }

  // ---------------------------------------------------------------- a reload that leaves the mode undeclared

  /** Two valid configurations that declare one mode each: after the reload the daemon is still in the old one. */
  lemma ReloadLeavesUndeclaredMode(codec: Codec, env: Surroundings, note: string, io: Io)
    ensures var calm, strict := ConfigWith([ModeConfig("calm", true)], []), ConfigWith([ModeConfig("strict", true)], []);
            var s := FirstBoot(calm, 0);
            var t := Run(s, codec, env, [Command.Reload(strict, true, note, io)]);
            && ConfigValid(calm, env) && ConfigValid(strict, env)
            && ModeKnown(s) && t.config == strict && !ModeKnown(t) && t.engine.snapshot.mode == "calm"
  {
    OneModeValid("calm", env);
    OneModeValid("strict", env);
    var calm, strict := ConfigWith([ModeConfig("calm", true)], []), ConfigWith([ModeConfig("strict", true)], []);
    var s, reload := FirstBoot(calm, 0), Command.Reload(strict, true, note, io);
    RunOneMore(s, codec, env, [], reload);
    assert [] + [reload] == [reload];
    assert s.engine.snapshot.mode == "calm";
    assert |"calm"| != |"strict"|;
  }

  // ---------------------------------------------------------------- one mount point, two unmounts

  /** A valid rule that unmounts one place under two spellings: a tick plans both. */
  lemma MountUnmountedTwice(env: Surroundings, host: Host)
    ensures var rule := TickRule(TriggerSpec.Tick, [ActionSpec.Unmount("/m"), ActionSpec.Unmount("/m/")]);
            var config := ConfigWith([], [rule]);
            && ConfigValid(config, env)
            && !EngineRuns.PlannedOnce(HandlePlan(FirstBoot(config, 0).engine, TickEvent("a"), host), MountPoint(PathOf("/m")))
  {
    var rule := TickRule(TriggerSpec.Tick, [ActionSpec.Unmount("/m"), ActionSpec.Unmount("/m/")]);
    NoModesValid(rule, env);
    assert "/m" + "/" == "/m/";
    EngineRuns.SpellingsBothPlanned(rule, "/m", TickEvent("a"), host);
  }
}
