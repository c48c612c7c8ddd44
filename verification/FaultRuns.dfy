/** Which stored runtimes can still be driven, by some continuation of events, into indexing past a shortened sequence. */
module FaultRuns {
  import opened Options
  import opened Config
  import opened Events
  import opened Matching
  import opened RuleRuntimes
  import opened Engine
  import opened EngineRuns

  /** An event and the verdict of the rule's condition at it. */
  datatype Sighting = Sighting(event: Event, holds: bool)

  /** A rule without a condition always has it satisfied; the verdict of any other depends on the machine. */
  ghost predicate Possible(rule: Rule, seen: seq<Sighting>) {
    rule.when.None? ==> forall i | 0 <= i < |seen| :: seen[i].holds
  }

  function After(rule: Rule, rt: RuleRuntime, seen: seq<Sighting>): RuleRuntime {
    if seen == [] then rt
    else
      var last := seen[|seen| - 1];
      RuleStep(rule, After(rule, rt, seen[..|seen| - 1]), last.event, last.holds).runtime
  }

  ghost predicate FaultsAfter(rule: Rule, rt: RuleRuntime, seen: seq<Sighting>, event: Event) {
    Possible(rule, seen) && RuleFaults(rule, After(rule, rt, seen), event)
  }

  /** When the window of the stored progress closes. */
  function Deadline(rule: Rule, rt: RuleRuntime): int
    requires rule.trigger.Sequence? && rt.progress.started.Some?
  {
    rt.progress.started.value + rule.trigger.within
  }

  /** A misfit index that can still be reached: the rule is not switched off or spent, and before the window closes its
      cooldown can be over. A waiting rule without a condition must fire first, which starts another cooldown and spends a
      once-per-boot rule; one with a condition can also be disarmed. */
  predicate Threatened(rule: Rule, rt: RuleRuntime) {
    && !Fits(rule, rt) && rule.enabled && rt.progress.started.Some? && !(rule.oncePerBoot && rt.firedOnce)
    && if rt.armedAt.None? || rule.when.Some? then
         rule.cooldown == 0 || rt.lastFired.None? || rt.lastFired.value + rule.cooldown <= Deadline(rule, rt)
       else
         && !rule.oncePerBoot
         && (rule.cooldown == 0 ||
             (&& (rule.sustainFor > 0 ==> rt.armedAt.value + rule.sustainFor + rule.cooldown <= Deadline(rule, rt))
              && (rt.lastFired.Some? ==> rt.lastFired.value + 2 * rule.cooldown <= Deadline(rule, rt))))
  }

  lemma FaultIsThreat(rule: Rule, rt: RuleRuntime, event: Event)
    requires Coherent(rt.progress) && RuleFaults(rule, rt, event)
    ensures Threatened(rule, rt)
  {
  }

  lemma CoherentStep(rule: Rule, rt: RuleRuntime, event: Event, holds: bool)
    requires Coherent(rt.progress)
    ensures Coherent(RuleStep(rule, rt, event, holds).runtime.progress)
  {
  }

  /** A step that leaves a misfit index leaves the whole progress alone, because the trigger was not reached or overran. */
  lemma MisfitStays(rule: Rule, rt: RuleRuntime, event: Event, holds: bool)
    requires Coherent(rt.progress) && !Fits(rule, RuleStep(rule, rt, event, holds).runtime)
    ensures RuleStep(rule, rt, event, holds).runtime.progress == rt.progress && !Fits(rule, rt)
    ensures RuleFaults(rule, rt, event) || !ReachesTrigger(rule, rt, event)
  {
  }

  /** No step makes a threat. */
  lemma ThreatWasThere(rule: Rule, rt: RuleRuntime, event: Event, holds: bool)
    requires Coherent(rt.progress) && (rule.when.None? ==> holds)
    requires Threatened(rule, RuleStep(rule, rt, event, holds).runtime)
    ensures Threatened(rule, rt)
  {
    MisfitStays(rule, rt, event, holds);
    if RuleFaults(rule, rt, event) {
      FaultIsThreat(rule, rt, event);
    }
  }

  lemma {:induction false} ThreatFromTheStart(rule: Rule, rt: RuleRuntime, seen: seq<Sighting>)
    requires Coherent(rt.progress) && Possible(rule, seen)
    ensures Coherent(After(rule, rt, seen).progress)
    ensures Threatened(rule, After(rule, rt, seen)) ==> Threatened(rule, rt)
  {
    if seen != [] {
      var before, last := seen[..|seen| - 1], seen[|seen| - 1];
      ThreatFromTheStart(rule, rt, before);
      CoherentStep(rule, After(rule, rt, before), last.event, last.holds);
      if Threatened(rule, After(rule, rt, seen)) {
        ThreatWasThere(rule, After(rule, rt, before), last.event, last.holds);
      }
    }
  }

  function TickAt(time: int): Event {
    Event("", time, "", EventKind.Tick)
  }

  lemma UnarmedFaults(rule: Rule, rt: RuleRuntime)
    requires Threatened(rule, rt) && rt.armedAt.None?
    ensures RuleFaults(rule, rt, TickAt(Deadline(rule, rt)))
  {
  }

  /** What takes a waiting rule out of its wait soon enough: a failing condition, or else a firing. */
  function Release(rule: Rule, rt: RuleRuntime): Sighting
    requires Threatened(rule, rt) && rt.armedAt.Some?
  {
    if rule.when.Some? then Sighting(TickAt(if rt.lastFired.Some? then rt.lastFired.value + rule.cooldown else 0), false)
    else Sighting(TickAt(if rule.cooldown > 0 then Deadline(rule, rt) - rule.cooldown else rt.armedAt.value + rule.sustainFor), true)
  }

  lemma ReleaseUnarms(rule: Rule, rt: RuleRuntime)
    requires Threatened(rule, rt) && rt.armedAt.Some?
    ensures var next := RuleStep(rule, rt, Release(rule, rt).event, Release(rule, rt).holds).runtime;
            Threatened(rule, next) && next.armedAt.None?
  {
  }

  lemma AfterOne(rule: Rule, rt: RuleRuntime, sighting: Sighting)
    ensures After(rule, rt, [sighting]) == RuleStep(rule, rt, sighting.event, sighting.holds).runtime
  {
    assert [sighting][..0] == [];
  }

  lemma ThreatFaults(rule: Rule, rt: RuleRuntime) returns (seen: seq<Sighting>, event: Event)
    requires Threatened(rule, rt)
    ensures FaultsAfter(rule, rt, seen, event)
  {
    if rt.armedAt.None? {
      seen, event := [], TickAt(Deadline(rule, rt));
      UnarmedFaults(rule, rt);
    } else {
      seen := [Release(rule, rt)];
      AfterOne(rule, rt, Release(rule, rt));
      ReleaseUnarms(rule, rt);
      var next := After(rule, rt, seen);
      event := TickAt(Deadline(rule, next));
      UnarmedFaults(rule, next);
    }
  }

  /** Some continuation of events makes a rule index out of range exactly when its stored runtime is threatened. */
  lemma ThreatExact(rule: Rule, rt: RuleRuntime)
    requires Coherent(rt.progress)
    ensures Threatened(rule, rt) <==> exists seen, event :: FaultsAfter(rule, rt, seen, event)
  {
    if Threatened(rule, rt) {
      var seen, event := ThreatFaults(rule, rt);
    }
    if seen, event :| FaultsAfter(rule, rt, seen, event) {
      ThreatFromTheStart(rule, rt, seen);
      FaultIsThreat(rule, After(rule, rt, seen), event);
    }
  }

  // ---------------------------------------------------------------- the engine

  ghost predicate Unthreatened(s: EngineState) {
    && (forall id | id in s.runtime :: Coherent(s.runtime[id].progress))
    && (forall rule | rule in s.rules :: !Threatened(rule, CarriedOver(s.runtime, rule.id)))
  }

  lemma HandleKeepsUnthreatened(s: EngineState, event: Event, host: Host)
    requires InForce(s) && Unthreatened(s)
    ensures Unthreatened(HandleState(s, event, host))
  {
    if !s.recovery {
      forall rule | rule in s.rules
        ensures rule.id in s.runtime && NextRuntime(s, rule.id, event, host) == React(s, rule, event, host).runtime
        ensures !Threatened(rule, React(s, rule, event, host).runtime)
      {
        var i :| 0 <= i < |s.rules| && s.rules[i] == rule;
        RuleOfFinds(s.rules, i);
        ReactKeepsUnthreatened(s, rule, event, host);
      }
      forall id | id in s.runtime ensures Coherent(NextRuntime(s, id, event, host).progress) {
        RuleOfSome(s.rules, id);
        var rule := RuleOf(s.rules, id).value;
        CoherentStep(rule, s.runtime[id], event, Holds(rule, ApplyEvent(s.snapshot, event), host));
      }
    }
  }

  lemma ReactKeepsUnthreatened(s: EngineState, rule: Rule, event: Event, host: Host)
    requires Coherent(CarriedOver(s.runtime, rule.id).progress) && !Threatened(rule, CarriedOver(s.runtime, rule.id))
    ensures !Threatened(rule, React(s, rule, event, host).runtime)
  {
    var rt, holds := CarriedOver(s.runtime, rule.id), Holds(rule, ApplyEvent(s.snapshot, event), host);
    if Threatened(rule, RuleStep(rule, rt, event, holds).runtime) {
      ThreatWasThere(rule, rt, event, holds);
    }
  }

  lemma StepKeepsUnthreatened(s: EngineState, step: Step)
    requires InForce(s) && Unthreatened(s) && !step.Reload?
    ensures Unthreatened(Next(s, step))
  {
    match step
    case Handle(event, host) => HandleKeepsUnthreatened(s, event, host);
    case _ =>
  }

  /** While no rule is threatened, no run of events, mode changes and recovery faults before the next reload. */
  lemma {:induction false} UnthreatenedRunsOn(s: EngineState, steps: seq<Step>, event: Event)
    requires InForce(s) && Unthreatened(s) && forall i | 0 <= i < |steps| :: !steps[i].Reload?
    ensures InForce(Run(s, steps)) && Unthreatened(Run(s, steps)) && FaultFree(Run(s, steps), event)
  {
    if steps != [] {
      var n := |steps| - 1;
      UnthreatenedRunsOn(s, steps[..n], event);
      StepKeepsInForce(Run(s, steps[..n]), steps[n]);
      StepKeepsUnthreatened(Run(s, steps[..n]), steps[n]);
    }
    UnthreatenedIsFaultFree(Run(s, steps), event);
  }

  lemma UnthreatenedIsFaultFree(s: EngineState, event: Event)
    requires InForce(s) && Unthreatened(s)
    ensures FaultFree(s, event)
  {
    forall rule | rule in s.rules ensures !RuleFaults(rule, CarriedOver(s.runtime, rule.id), event) {
      assert rule.id in s.runtime;
      if RuleFaults(rule, CarriedOver(s.runtime, rule.id), event) {
        FaultIsThreat(rule, CarriedOver(s.runtime, rule.id), event);
      }
    }
  }
}
