/** One rule's own state machine: cooldown, once-per-boot, sustain arming and the sequence automaton. */
module RuleRuntimes {
  import opened Options
  import opened Config
  import opened Events
  import opened Matching

  /** The time between two instants, zero when the clock went backwards. */
  function Elapsed(later: int, earlier: int): nat {
    if later < earlier then 0 else later - earlier
  }

  /** How far a sequence trigger has advanced and when its first step was seen. */
  datatype Progress = Progress(index: nat, started: Option<int>)

  const NO_PROGRESS := Progress(0, None)

  datatype RuleRuntime = RuleRuntime(lastFired: Option<int>, armedAt: Option<int>, firedOnce: bool, progress: Progress)

  const FRESH := RuleRuntime(None, None, false, NO_PROGRESS)

  datatype ActionPlan = ActionPlan(ruleId: string, priority: int, eventId: string, action: ActionSpec)

  function Plans(rule: Rule, event: Event, actions: seq<ActionSpec>): seq<ActionPlan> {
    seq(|actions|, i requires 0 <= i < |actions| => ActionPlan(rule.id, rule.priority, event.id, actions[i]))
  }

  // ---------------------------------------------------------------- the sequence automaton

  predicate Expired(p: Progress, within: nat, event: Event) {
    p.started.Some? && Elapsed(event.timestamp, p.started.value) > within
  }

  /** The progress against which an event is compared: a window that has passed starts over. */
  function Current(p: Progress, within: nat, event: Event): Progress {
    if Expired(p, within, event) then NO_PROGRESS else p
  }

  /** The daemon would index past the end of `steps` here. */
  predicate SequenceFaults(p: Progress, steps: seq<TriggerSpec>, within: nat, event: Event) {
    steps != [] && Current(p, within, event).index >= |steps|
  }

  /** One event fed to the automaton: new progress and whether it completed. Where `SequenceFaults` holds the
      daemon panics and nothing follows; the value given there is never observed. */
  function SequenceStep(p: Progress, steps: seq<TriggerSpec>, within: nat, event: Event): (Progress, bool) {
    var q := Current(p, within, event);
    if steps == [] then (p, false)
    else if SequenceFaults(p, steps, within, event) then (p, false)
    else if TriggerMatches(steps[q.index], event.kind) then
      if q.index + 1 == |steps| then (NO_PROGRESS, true)
      else (Progress(q.index + 1, if q.index == 0 then Some(event.timestamp) else q.started), false)
    else if TriggerMatches(steps[0], event.kind) then (Progress(1, Some(event.timestamp)), false)
    else (q, false)
  }

  /** How one event moves the automaton, said case by case. An event that comes after the window has closed is compared as
      if nothing had been seen. Advancing comes before starting over: an event that matches the awaited step counts as that
      step, even if it matches the first one too; one that matches only the first starts over; any other is passed over. */
  lemma SequenceStepExact(p: Progress, steps: seq<TriggerSpec>, within: nat, event: Event)
    requires Coherent(p) && p.index < |steps|
    ensures var late := p.started.Some? && event.timestamp - p.started.value > within;
            var at := if late then 0 else p.index;
            var (next, done) := SequenceStep(p, steps, within, event);
            && (done <==> TriggerMatches(steps[at], event.kind) && at == |steps| - 1)
            && (done ==> next.index == 0 && next.started.None?)
            && (TriggerMatches(steps[at], event.kind) && at < |steps| - 1 ==>
                  next.index == at + 1 && next.started == (if at == 0 then Some(event.timestamp) else p.started))
            && (!TriggerMatches(steps[at], event.kind) && TriggerMatches(steps[0], event.kind) ==>
                  next.index == 1 && next.started == Some(event.timestamp))
            && (!TriggerMatches(steps[at], event.kind) && !TriggerMatches(steps[0], event.kind) ==>
                  next.index == at && next.started == (if late then None else p.started))
  {
  }

  method SequenceMatches(runtime: RuleRuntime, steps: seq<TriggerSpec>, within: nat, event: Event)
    returns (next: RuleRuntime, matched: bool)
    requires !SequenceFaults(runtime.progress, steps, within, event)
    ensures next == runtime.(progress := SequenceStep(runtime.progress, steps, within, event).0)
    ensures matched == SequenceStep(runtime.progress, steps, within, event).1
  {
    var index, started := runtime.progress.index, runtime.progress.started;
    if steps == [] {
      return runtime, false;
    }
    if started.Some? && Elapsed(event.timestamp, started.value) > within {
      index, started := 0, None;
    }
    matched := false;
    if !TriggerMatches(steps[index], event.kind) {
      if TriggerMatches(steps[0], event.kind) {
        index, started := 1, Some(event.timestamp);
      }
      next := runtime.(progress := Progress(index, started));
      return;
    }
    if index == 0 {
      started := Some(event.timestamp);
    }
    index := index + 1;
    if index == |steps| {
      index, started, matched := 0, None, true;
    }
    next := runtime.(progress := Progress(index, started));
  }

  /** Progress that a run can reach: the window is open exactly while steps have been matched. */
  predicate Coherent(p: Progress) {
    p.started.Some? <==> p.index > 0
  }

  /** Some event makes the daemon index out of range exactly when the stored index does not fit the steps. */
  lemma FaultExact(p: Progress, steps: seq<TriggerSpec>, within: nat)
    requires Coherent(p)
    ensures (exists event :: SequenceFaults(p, steps, within, event)) <==> steps != [] && p.index >= |steps|
  {
    if steps != [] && p.index >= |steps| {
      var event := Event("", p.started.value, "", EventKind.Tick);
      assert SequenceFaults(p, steps, within, event);
    }
  }

  // ---------------------------------------------------------------- one rule against one event

  datatype Reaction = Reaction(runtime: RuleRuntime, plans: seq<ActionPlan>, fired: bool)

  predicate OwnFailure(rule: Rule, event: Event) {
    event.kind.SensorFailure? && TriggerUsesSensor(rule.trigger, event.kind.sensor)
  }

  /** The checks that come before anything is looked at. */
  predicate Suppressed(rule: Rule, rt: RuleRuntime, event: Event) {
    || !rule.enabled
    || (rule.oncePerBoot && rt.firedOnce)
    || (rt.lastFired.Some? && Elapsed(event.timestamp, rt.lastFired.value) < rule.cooldown)
  }

  /** The event gets as far as the rule's trigger. */
  predicate ReachesTrigger(rule: Rule, rt: RuleRuntime, event: Event) {
    !Suppressed(rule, rt, event) && !OwnFailure(rule, event) && rt.armedAt.None?
  }

  function TriggerStep(trigger: TriggerSpec, p: Progress, event: Event): (Progress, bool) {
    match trigger
    case Sequence(steps, within) => SequenceStep(p, steps, within, event)
    case _ => (p, TriggerMatches(trigger, event.kind))
  }

  predicate TriggerHit(rule: Rule, rt: RuleRuntime, event: Event) {
    ReachesTrigger(rule, rt, event) && TriggerStep(rule.trigger, rt.progress, event).1
  }

  predicate PermittedWhenFailing(action: ActionSpec) {
    action.LockVault? || action == ActionSpec.NetworkIsolation(true) || action.SetMode?
  }

  function AlertAction(event: Event): ActionSpec
    requires event.kind.SensorFailure?
  {
    Notify("Kovert sensor failure", event.kind.sensor + ": " + event.kind.message, Critical)
  }

  function FailureActions(rule: Rule, event: Event): seq<ActionSpec>
    requires event.kind.SensorFailure?
  {
    match rule.onSensorFailure
    case Ignore => []
    case Alert => [AlertAction(event)]
    case FailClosed => Filter(PermittedWhenFailing, rule.actions)
  }

  function Fire(rule: Rule, rt: RuleRuntime, event: Event): Reaction {
    Reaction(rt.(armedAt := None, lastFired := Some(event.timestamp), firedOnce := true),
             Plans(rule, event, rule.actions), true)
  }

  function RuleStep(rule: Rule, rt: RuleRuntime, event: Event, holds: bool): Reaction {
    if Suppressed(rule, rt, event) then Reaction(rt, [], false)
    else if OwnFailure(rule, event) then Reaction(rt, Plans(rule, event, FailureActions(rule, event)), false)
    else if rt.armedAt.Some? then
      if !holds then Reaction(rt.(armedAt := None), [], false)
      else if Elapsed(event.timestamp, rt.armedAt.value) < rule.sustainFor then Reaction(rt, [], false)
      else Fire(rule, rt, event)
    else
      var (progress, hit) := TriggerStep(rule.trigger, rt.progress, event);
      var next := rt.(progress := progress);
      if !hit || !holds then Reaction(next, [], false)
      else if rule.sustainFor == 0 then Fire(rule, next, event)
      else Reaction(next.(armedAt := Some(event.timestamp)), [], false)
  }

  predicate RuleFaults(rule: Rule, rt: RuleRuntime, event: Event) {
    ReachesTrigger(rule, rt, event) && rule.trigger.Sequence? &&
    SequenceFaults(rt.progress, rule.trigger.steps, rule.trigger.within, event)
  }

  method AppendActions(candidates: seq<ActionPlan>, rule: Rule, event: Event, actions: seq<ActionSpec>)
    returns (out: seq<ActionPlan>)
    ensures out == candidates + Plans(rule, event, actions)
  {
    out := candidates;
    for i := 0 to |actions|
      invariant out == candidates + Plans(rule, event, actions)[..i]
    {
      out := out + [ActionPlan(rule.id, rule.priority, event.id, actions[i])];
    }
  }

  /** The body of the evaluation loop, branch by branch. */
  method Evaluate(rule: Rule, runtime: RuleRuntime, event: Event, holds: bool, candidates: seq<ActionPlan>)
    returns (next: RuleRuntime, out: seq<ActionPlan>)
    requires !RuleFaults(rule, runtime, event)
    ensures next == RuleStep(rule, runtime, event, holds).runtime
    ensures out == candidates + RuleStep(rule, runtime, event, holds).plans
  {
    next, out := runtime, candidates;
    if !rule.enabled {
      return;
    }
    if rule.oncePerBoot && next.firedOnce {
      return;
    }
    if next.lastFired.Some? && Elapsed(event.timestamp, next.lastFired.value) < rule.cooldown {
      return;
    }
    if event.kind.SensorFailure? && TriggerUsesSensor(rule.trigger, event.kind.sensor) {
      out := AppendActions(out, rule, event, FailureActions(rule, event));
      return;
    }
    if next.armedAt.Some? {
      if !holds {
        next := next.(armedAt := None);
        return;
      }
      if Elapsed(event.timestamp, next.armedAt.value) < rule.sustainFor {
        return;
      }
      next := next.(armedAt := None);
      out := AppendActions(out, rule, event, rule.actions);
      next := next.(lastFired := Some(event.timestamp), firedOnce := true);
      return;
    }
    var matched;
    if rule.trigger.Sequence? {
      next, matched := SequenceMatches(next, rule.trigger.steps, rule.trigger.within, event);
    } else {
      matched := TriggerMatches(rule.trigger, event.kind);
    }
    if !matched || !holds {
      return;
    }
    if rule.sustainFor == 0 {
      out := AppendActions(out, rule, event, rule.actions);
      next := next.(lastFired := Some(event.timestamp), firedOnce := true);
    } else {
      next := next.(armedAt := Some(event.timestamp));
    }
  }

  // ---------------------------------------------------------------- sensor failures against whole rules

  /** A rule whose validated trigger has no negation never arms, advances or fires on a sensor failure; what it
      contributes is its failure policy's answer and nothing else. */
  lemma FailureNeverTriggers(rule: Rule, rt: RuleRuntime, event: Event, holds: bool)
    requires event.kind.SensorFailure? && rt.armedAt.None?
    requires NegationFree(rule.trigger) && NoEmptyComposite(rule.trigger)
    ensures var r := RuleStep(rule, rt, event, holds);
            && !r.fired && r.runtime.armedAt.None?
            && (r.runtime.progress == rt.progress || r.runtime.progress == NO_PROGRESS)
            && forall p | p in r.plans :: p.action == AlertAction(event) || PermittedWhenFailing(p.action)
  {
    if OwnFailure(rule, event) {
      FailureActionsPermitted(rule, event);
    } else {
      UnusedFailureMisses(rule.trigger, rt.progress, event);
    }
  }

  lemma FailureActionsPermitted(rule: Rule, event: Event)
    requires event.kind.SensorFailure?
    ensures forall a | a in FailureActions(rule, event) :: a == AlertAction(event) || PermittedWhenFailing(a)
  {
    forall a ensures a in FailureActions(rule, event) ==> a == AlertAction(event) || PermittedWhenFailing(a) {
      FilterMembers(PermittedWhenFailing, rule.actions, a);
    }
  }

  lemma UnusedFailureMisses(trigger: TriggerSpec, p: Progress, event: Event)
    requires event.kind.SensorFailure? && !TriggerUsesSensor(trigger, event.kind.sensor)
    requires NegationFree(trigger) && NoEmptyComposite(trigger)
    ensures var (next, hit) := TriggerStep(trigger, p, event);
            !hit && (next == p || next == NO_PROGRESS)
  {
    if trigger.Sequence? {
      forall t | t in trigger.steps ensures !TriggerMatches(t, event.kind) {
        StepsDoNotMatch(trigger, t, event.kind.sensor, event.kind.message);
      }
    } else if TriggerMatches(trigger, event.kind) {
      FailureSeparation(trigger, event.kind.sensor, event.kind.message);
    }
  }

  lemma StepsDoNotMatch(trigger: TriggerSpec, step: TriggerSpec, sensor: string, message: string)
    requires trigger.Sequence? && step in trigger.steps
    requires NegationFree(trigger) && NoEmptyComposite(trigger) && !TriggerUsesSensor(trigger, sensor)
    ensures !TriggerMatches(step, EventKind.SensorFailure(sensor, message))
  {
    if TriggerMatches(step, EventKind.SensorFailure(sensor, message)) {
      FailureSeparation(step, sensor, message);
    }
  }

  /** Fail-closed contributes exactly the rule's lock, isolate and mode actions, in their order. */
  lemma FailClosedContribution(rule: Rule, rt: RuleRuntime, event: Event, holds: bool, action: ActionSpec)
    requires rule.onSensorFailure.FailClosed? && OwnFailure(rule, event) && !Suppressed(rule, rt, event)
    ensures var r := RuleStep(rule, rt, event, holds);
            && r.runtime == rt && !r.fired
            && ((exists p | p in r.plans :: p.action == action) <==>
                action in rule.actions &&
                (action.LockVault? || action.SetMode? || (action.NetworkIsolation? && action.enabled)))
            && (forall p | p in r.plans :: p == ActionPlan(rule.id, rule.priority, event.id, p.action))
            && seq(|r.plans|, i requires 0 <= i < |r.plans| => r.plans[i].action) == Filter(PermittedWhenFailing, rule.actions)
  {
    FilterMembers(PermittedWhenFailing, rule.actions, action);
    var plans := Plans(rule, event, FailureActions(rule, event));
    if action in FailureActions(rule, event) {
      var i :| 0 <= i < |FailureActions(rule, event)| && FailureActions(rule, event)[i] == action;
      assert plans[i] in plans && plans[i].action == action;
    }
  }

  /** The other two answers to the failure of an own sensor: nothing at all, or one critical notification that names the
      sensor and its message; neither touches the runtime or counts as a firing. */
  lemma AlertAndIgnoreExact(rule: Rule, rt: RuleRuntime, event: Event, holds: bool)
    requires OwnFailure(rule, event) && !Suppressed(rule, rt, event) && !rule.onSensorFailure.FailClosed?
    ensures RuleStep(rule, rt, event, holds) == Reaction(
              rt,
              if rule.onSensorFailure.Ignore? then []
              else [ActionPlan(rule.id, rule.priority, event.id,
                               ActionSpec.Notify("Kovert sensor failure", event.kind.sensor + ": " + event.kind.message,
                                                 NotificationUrgency.Critical))],
              false)
  {
    var plans := RuleStep(rule, rt, event, holds).plans;
    if rule.onSensorFailure.Alert? {
      assert |plans| == 1 && plans[0].ruleId == rule.id && plans[0].priority == rule.priority && plans[0].eventId == event.id;
    }
  }

  /** Away from failures of its own sensors a rule plans something exactly when it fires, and then each of its actions, in
      order, under its own identifier and priority and the event's identifier. */
  lemma FiringPlansActions(rule: Rule, rt: RuleRuntime, event: Event, holds: bool)
    requires !OwnFailure(rule, event)
    ensures var r := RuleStep(rule, rt, event, holds);
            && |r.plans| == (if r.fired then |rule.actions| else 0)
            && (forall i | 0 <= i < |r.plans| :: r.plans[i] == ActionPlan(rule.id, rule.priority, event.id, rule.actions[i]))
  {
  }
}
