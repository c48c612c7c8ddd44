/** Whole runs of the engine: events, mode changes, recovery toggles and reloads in any order. */
module EngineRuns {
  import opened Options
  import opened Ordering
  import opened Config
  import opened Events
  import opened Matching
  import opened RuleRuntimes
  import opened RuleRuns
  import opened Conflicts
  import opened Engine

  datatype Step = Handle(event: Event, host: Host) | SetMode(mode: string) | Recovery(enabled: bool) | Reload(rules: seq<Rule>)

  function Next(s: EngineState, step: Step): EngineState {
    match step
    case Handle(event, host) => HandleState(s, event, host)
    case SetMode(mode) => s.(snapshot := s.snapshot.(mode := mode))
    case Recovery(enabled) => WithRecovery(s, enabled)
    case Reload(rules) => WithRules(s, rules)
  }

  function Run(s: EngineState, steps: seq<Step>): EngineState {
    if steps == [] then s else Next(Run(s, steps[..|steps| - 1]), steps[|steps| - 1])
  }

  /** Reloads bring validated rules, whose identifiers are unique. */
  ghost predicate Admissible(steps: seq<Step>) {
    forall i | 0 <= i < |steps| && steps[i].Reload? :: UniqueIds(steps[i].rules)
  }

  lemma StepKeepsInForce(s: EngineState, step: Step)
    requires InForce(s) && (step.Reload? ==> UniqueIds(step.rules))
    ensures InForce(Next(s, step))
  {
    match step
    case Reload(rules) => SortedRules(rules);
    case _ =>
  }

  lemma {:induction false} RunKeepsInForce(s: EngineState, steps: seq<Step>)
    requires InForce(s) && Admissible(steps)
    ensures InForce(Run(s, steps))
  {
    if steps != [] {
      RunKeepsInForce(s, steps[..|steps| - 1]);
      StepKeepsInForce(Run(s, steps[..|steps| - 1]), steps[|steps| - 1]);
    }
  }

  lemma NewEngineInForce(rules: seq<Rule>, mode: string, now: int)
    requires UniqueIds(rules)
    ensures InForce(NewEngine(rules, mode, now))
  {
    SortedRules(rules);
  }

  // ---------------------------------------------------------------- each rule lives its own history

  /** What a step means to the rule called `id`. */
  function InputOf(s: EngineState, step: Step, id: string): Option<RuleInput> {
    match step
    case Handle(event, host) =>
      if s.recovery then None
      else (match RuleOf(s.rules, id)
            case None => None
            case Some(rule) => Some(Observe(rule, event, Holds(rule, ApplyEvent(s.snapshot, event), host))))
    case Recovery(enabled) => if enabled then Some(Barrier) else None
    case _ => None
  }

  /** The history of the rule called `id`; it starts over when a reload drops the rule. */
  function HistoryOf(s: EngineState, steps: seq<Step>, id: string): History {
    if steps == [] then []
    else
      var before, step := steps[..|steps| - 1], steps[|steps| - 1];
      var h, t := HistoryOf(s, before, id), Run(s, before);
      if step.Reload? then (if id in t.runtime then h else [])
      else match InputOf(t, step, id) case None => h case Some(input) => h + [input]
  }

  lemma StepFollowsHistory(s: EngineState, step: Step, id: string, h: History)
    requires InForce(s) && !step.Reload? && CarriedOver(s.runtime, id) == RuntimeAfter(h) && id in s.runtime
    ensures var g := match InputOf(s, step, id) case None => h case Some(input) => h + [input];
            CarriedOver(Next(s, step).runtime, id) == RuntimeAfter(g)
  {
    RuleOfSome(s.rules, id);
    match InputOf(s, step, id)
    case None =>
    case Some(input) => assert (h + [input])[..|h|] == h;
  }

  lemma ReloadFollowsHistory(s: EngineState, rules: seq<Rule>, id: string, h: History)
    requires id in WithRules(s, rules).runtime && (id in s.runtime ==> s.runtime[id] == RuntimeAfter(h))
    ensures WithRules(s, rules).runtime[id] == RuntimeAfter(if id in s.runtime then h else [])
  {
  }

  lemma OnlyReloadsChangeIds(s: EngineState, step: Step)
    requires !step.Reload?
    ensures Next(s, step).runtime.Keys == s.runtime.Keys
  {
  }

  /** The loop isolates rules: in every run, a rule's runtime is that of its own history and of nothing else. */
  lemma {:induction false} RulesLiveTheirHistories(s: EngineState, steps: seq<Step>, id: string)
    requires InForce(s) && Admissible(steps) && (forall i | i in s.runtime :: s.runtime[i] == FRESH)
    requires id in Run(s, steps).runtime
    ensures Run(s, steps).runtime[id] == RuntimeAfter(HistoryOf(s, steps, id))
  {
    if steps != [] {
      var before, step := steps[..|steps| - 1], steps[|steps| - 1];
      var t := Run(s, before);
      if id in t.runtime {
        RulesLiveTheirHistories(s, before, id);
      }
      if step.Reload? {
        ReloadFollowsHistory(t, step.rules, id, HistoryOf(s, before, id));
      } else {
        OnlyReloadsChangeIds(t, step);
        RunKeepsInForce(s, before);
        StepFollowsHistory(t, step, id, HistoryOf(s, before, id));
      }
    }
  }

  /** The two engines agree on everything the rule called `id` depends on. */
  ghost predicate AgreeOn(a: EngineState, b: EngineState, id: string) {
    && RuleOf(a.rules, id) == RuleOf(b.rules, id) && a.snapshot == b.snapshot && a.recovery == b.recovery
    && (id in a.runtime <==> id in b.runtime) && CarriedOver(a.runtime, id) == CarriedOver(b.runtime, id)
  }

  /** The same step, or two reloads that agree on the rule called `id`, be it that both drop it. */
  ghost predicate AlikeFor(x: Step, y: Step, id: string) {
    if x.Reload? then y.Reload? && UniqueIds(x.rules) && UniqueIds(y.rules) && RuleOf(x.rules, id) == RuleOf(y.rules, id)
    else x == y
  }

  lemma SortedLookup(rules: seq<Rule>, id: string)
    requires UniqueIds(rules)
    ensures RuleOf(StableSort(RuleLe, rules), id) == RuleOf(rules, id)
  {
    var sorted := StableSort(RuleLe, rules);
    SortedRules(rules);
    RuleOfSome(rules, id);
    RuleOfSome(sorted, id);
    if RuleOf(rules, id).Some? {
      var rule := RuleOf(rules, id).value;
      var i :| 0 <= i < |sorted| && sorted[i] == rule;
      RuleOfFinds(sorted, i);
    }
  }

  lemma ReloadKeepsAgreement(a: EngineState, b: EngineState, x: seq<Rule>, y: seq<Rule>, id: string)
    requires AgreeOn(a, b, id) && UniqueIds(x) && UniqueIds(y) && RuleOf(x, id) == RuleOf(y, id)
    ensures AgreeOn(WithRules(a, x), WithRules(b, y), id)
  {
    SortedLookup(x, id);
    SortedLookup(y, id);
    RuleOfSome(x, id);
    RuleOfSome(y, id);
  }

  lemma StepKeepsAgreement(a: EngineState, b: EngineState, x: Step, y: Step, id: string)
    requires AgreeOn(a, b, id) && AlikeFor(x, y, id)
    ensures AgreeOn(Next(a, x), Next(b, y), id)
  {
    if x.Reload? {
      ReloadKeepsAgreement(a, b, x.rules, y.rules, id);
    } else {
      RuleOfSome(a.rules, id);
    }
  }

  /** Two engines that hold the same rule among any other rules, and reload it among any other rules, treat it alike: for
      the same events it keeps the same runtime and fires at the same times. */
  lemma {:induction false} OtherRulesDoNotMatter(a: EngineState, b: EngineState, x: seq<Step>, y: seq<Step>, id: string)
    requires AgreeOn(a, b, id) && |x| == |y| && forall i | 0 <= i < |x| :: AlikeFor(x[i], y[i], id)
    ensures AgreeOn(Run(a, x), Run(b, y), id)
    ensures FiringTimesOf(a, x, id) == FiringTimesOf(b, y, id)
  {
    if x != [] {
      var n := |x| - 1;
      OtherRulesDoNotMatter(a, b, x[..n], y[..n], id);
      RuleOfSome(Run(a, x[..n]).rules, id);
      StepKeepsAgreement(Run(a, x[..n]), Run(b, y[..n]), x[n], y[n], id);
    }
  }

  // ---------------------------------------------------------------- rate limits of the engine

  /** Event times at which the rule called `id` fires by its trigger or its sustained condition. */
  function FiringTimesOf(s: EngineState, steps: seq<Step>, id: string): seq<int> {
    if steps == [] then []
    else
      var before, step := steps[..|steps| - 1], steps[|steps| - 1];
      FiringTimesOf(s, before, id) + (if FiresNow(Run(s, before), step, id) then [step.event.timestamp] else [])
  }

  predicate FiresNow(t: EngineState, step: Step, id: string) {
    step.Handle? && !t.recovery && RuleOf(t.rules, id).Some? &&
    React(t, RuleOf(t.rules, id).value, step.event, step.host).fired
  }

  /** The rule called `id` is present, satisfying `keeps`, in every state of the run. */
  ghost predicate KeptThroughout(s: EngineState, steps: seq<Step>, id: string, keeps: Rule -> bool) {
    forall k | 0 <= k <= |steps| ::
      var rule := RuleOf(Run(s, steps[..k]).rules, id);
      rule.Some? && keeps(rule.value)
  }

  lemma KeptPrefix(s: EngineState, steps: seq<Step>, id: string, keeps: Rule -> bool)
    requires steps != [] && KeptThroughout(s, steps, id, keeps)
    ensures KeptThroughout(s, steps[..|steps| - 1], id, keeps)
    ensures var rule := RuleOf(Run(s, steps[..|steps| - 1]).rules, id); rule.Some? && keeps(rule.value)
  {
    var before := steps[..|steps| - 1];
    forall k | 0 <= k <= |before| ensures before[..k] == steps[..k] {}
  }

  /** A step fires the rule called `id` exactly when the input it amounts to does. */
  lemma FiringFollowsHistory(t: EngineState, step: Step, id: string, h: History)
    requires CarriedOver(t.runtime, id) == RuntimeAfter(h) && !step.Reload?
    requires RuleOf(t.rules, id).Some? && RuleOf(t.rules, id).value.id == id
    ensures FiresNow(t, step, id) <==> InputOf(t, step, id).Some? && FiresAt(h + [InputOf(t, step, id).value], |h|)
    ensures FiresNow(t, step, id) ==> InputOf(t, step, id).value.event == step.event
  {
    var input := InputOf(t, step, id);
    if input.Some? {
      assert (h + [input.value])[..|h|] == h;
    }
  }

  lemma FiringTimesMore(h: History, input: RuleInput)
    ensures FiringTimes(h + [input]) == FiringTimes(h) + (if FiresAt(h + [input], |h|) then [input.event.timestamp] else [])
  {
    assert (h + [input])[..|h|] == h;
  }

  lemma {:induction false} FiringTimesFromHistory(s: EngineState, steps: seq<Step>, id: string, keeps: Rule -> bool)
    requires InForce(s) && Admissible(steps) && (forall i | i in s.runtime :: s.runtime[i] == FRESH)
    requires KeptThroughout(s, steps, id, keeps)
    ensures FiringTimesOf(s, steps, id) == FiringTimes(HistoryOf(s, steps, id))
  {
    if steps != [] {
      var before, step := steps[..|steps| - 1], steps[|steps| - 1];
      KeptPrefix(s, steps, id, keeps);
      FiringTimesFromHistory(s, before, id, keeps);
      RunKeepsInForce(s, before);
      var t, h := Run(s, before), HistoryOf(s, before, id);
      RuleOfSome(t.rules, id);
      if !step.Reload? {
        RulesLiveTheirHistories(s, before, id);
        FiringFollowsHistory(t, step, id, h);
        if InputOf(t, step, id).Some? {
          FiringTimesMore(h, InputOf(t, step, id).value);
        }
      }
    }
  }

  lemma {:induction false} HistoryKeeps(s: EngineState, steps: seq<Step>, id: string, keeps: Rule -> bool)
    requires KeptThroughout(s, steps, id, keeps)
    ensures forall i | 0 <= i < |HistoryOf(s, steps, id)| ::
              HistoryOf(s, steps, id)[i].Observe? ==> keeps(HistoryOf(s, steps, id)[i].rule)
  {
    if steps != [] {
      KeptPrefix(s, steps, id, keeps);
      HistoryKeeps(s, steps[..|steps| - 1], id, keeps);
    }
  }

  /** However events, modes, recovery and reloads are interleaved, a rule that keeps its identifier and its cooldown
      `c` fires for the k-th time at least `k * c` of event time after its first. */
  lemma EngineRateBound(s: EngineState, steps: seq<Step>, id: string, c: nat, k: nat)
    requires InForce(s) && Admissible(steps) && (forall i | i in s.runtime :: s.runtime[i] == FRESH)
    requires c > 0 && KeptThroughout(s, steps, id, (r: Rule) => r.cooldown == c)
    requires k < |FiringTimesOf(s, steps, id)|
    ensures FiringTimesOf(s, steps, id)[k] - FiringTimesOf(s, steps, id)[0] >= k * c
  {
    FiringTimesFromHistory(s, steps, id, (r: Rule) => r.cooldown == c);
    HistoryKeeps(s, steps, id, (r: Rule) => r.cooldown == c);
    FiringsSpan(HistoryOf(s, steps, id), c, k);
  }

  lemma EngineFiresOncePerBoot(s: EngineState, steps: seq<Step>, id: string)
    requires InForce(s) && Admissible(steps) && (forall i | i in s.runtime :: s.runtime[i] == FRESH)
    requires KeptThroughout(s, steps, id, (r: Rule) => r.oncePerBoot)
    ensures |FiringTimesOf(s, steps, id)| <= 1
  {
    FiringTimesFromHistory(s, steps, id, (r: Rule) => r.oncePerBoot);
    HistoryKeeps(s, steps, id, (r: Rule) => r.oncePerBoot);
    OncePerBootFiresOnce(HistoryOf(s, steps, id));
  }

  // ---------------------------------------------------------------- recovery and reload

  predicate QuietStep(step: Step) {
    step.Handle? || step.SetMode?
  }

  /** While recovery lasts, whatever events arrive and modes are set: no plan is made, no runtime moves, and the snapshot
      goes on following the events. */
  lemma {:induction false} RecoveryIsInert(s: EngineState, steps: seq<Step>)
    requires s.recovery && forall i | 0 <= i < |steps| :: QuietStep(steps[i])
    ensures Run(s, steps).recovery && Run(s, steps).runtime == s.runtime && Run(s, steps).rules == s.rules
    ensures forall event, host :: HandlePlan(Run(s, steps), event, host) == []
    ensures forall event, host :: HandleState(Run(s, steps), event, host).snapshot == ApplyEvent(Run(s, steps).snapshot, event)
  {
    if steps != [] {
      RecoveryIsInert(s, steps[..|steps| - 1]);
    }
  }

  predicate Fits(rule: Rule, rt: RuleRuntime) {
    rule.trigger.Sequence? && rule.trigger.steps != [] ==> rt.progress.index < |rule.trigger.steps|
  }

  ghost predicate AllFit(s: EngineState) {
    && (forall id | id in s.runtime :: Coherent(s.runtime[id].progress))
    && (forall rule | rule in s.rules :: Fits(rule, CarriedOver(s.runtime, rule.id)))
  }

  /** A reload is safe for the state it meets: no carried-over index is beyond the new steps. */
  predicate ReloadFits(s: EngineState, rules: seq<Rule>) {
    forall rule | rule in rules :: Fits(rule, CarriedOver(s.runtime, rule.id))
  }

  /** After a reload some event can index out of range exactly when a carried-over index does not fit. */
  lemma ReloadSafeExact(s: EngineState, rules: seq<Rule>)
    requires InForce(s) && UniqueIds(rules) && AllFit(s)
    ensures ReloadFits(s, rules) <==>
            forall rule, event | rule in rules && rule.trigger.Sequence? ::
              !SequenceFaults(CarriedOver(WithRules(s, rules).runtime, rule.id).progress, rule.trigger.steps,
                              rule.trigger.within, event)
  {
    forall rule | rule in rules && rule.trigger.Sequence?
      ensures Fits(rule, CarriedOver(s.runtime, rule.id)) <==>
              forall event :: !SequenceFaults(CarriedOver(WithRules(s, rules).runtime, rule.id).progress,
                                              rule.trigger.steps, rule.trigger.within, event)
    {
      var p := CarriedOver(s.runtime, rule.id).progress;
      assert rule.id in Ids(rules);
      assert CarriedOver(WithRules(s, rules).runtime, rule.id).progress == p;
      FaultExact(p, rule.trigger.steps, rule.trigger.within);
    }
  }

  /** A rule that can be made to index out of range by the very next event: its stored index does not fit, nothing
      suppresses it for good, it is not waiting, and the window is still open when its cooldown is over. */
  predicate Exposed(rule: Rule, rt: RuleRuntime) {
    && !Fits(rule, rt) && rule.enabled && !(rule.oncePerBoot && rt.firedOnce) && rt.armedAt.None?
    && rt.progress.started.Some?
    && (rt.lastFired.None? || rule.cooldown == 0 ||
        rt.lastFired.value + rule.cooldown <= rt.progress.started.value + rule.trigger.within)
  }

  lemma ExposedExact(rule: Rule, rt: RuleRuntime)
    requires Coherent(rt.progress)
    ensures Exposed(rule, rt) <==> exists event :: RuleFaults(rule, rt, event)
  {
    if Exposed(rule, rt) {
      var at := rt.progress.started.value + rule.trigger.within;
      var event := Event("", at, "", EventKind.Tick);
      assert RuleFaults(rule, rt, event);
    }
  }

  /** Some next event makes the engine index out of range exactly when a rule in force is exposed. */
  lemma FaultFreeExact(s: EngineState)
    requires InForce(s) && forall id | id in s.runtime :: Coherent(s.runtime[id].progress)
    ensures (forall event :: FaultFree(s, event)) <==>
            s.recovery || forall rule | rule in s.rules :: !Exposed(rule, CarriedOver(s.runtime, rule.id))
  {
    forall rule | rule in s.rules
      ensures Exposed(rule, CarriedOver(s.runtime, rule.id)) <==>
              exists event :: RuleFaults(rule, CarriedOver(s.runtime, rule.id), event)
    {
      ExposedExact(rule, CarriedOver(s.runtime, rule.id));
    }
    if rule :| !s.recovery && rule in s.rules && Exposed(rule, CarriedOver(s.runtime, rule.id)) {
      var event :| RuleFaults(rule, CarriedOver(s.runtime, rule.id), event);
      assert !FaultFree(s, event);
    }
  }

  lemma StepKeepsFit(rule: Rule, rt: RuleRuntime, event: Event, holds: bool)
    requires Coherent(rt.progress) && Fits(rule, rt)
    ensures var next := RuleStep(rule, rt, event, holds).runtime;
            Coherent(next.progress) && Fits(rule, next)
    ensures !RuleFaults(rule, rt, event)
  {
  }

  lemma HandleKeepsFit(s: EngineState, event: Event, host: Host)
    requires InForce(s) && AllFit(s)
    ensures AllFit(HandleState(s, event, host)) && FaultFree(s, event)
  {
    forall rule | rule in s.rules
      ensures rule.id in s.runtime && RuleOf(s.rules, rule.id) == Some(rule)
      ensures !RuleFaults(rule, s.runtime[rule.id], event) && Fits(rule, React(s, rule, event, host).runtime)
      ensures Coherent(React(s, rule, event, host).runtime.progress)
    {
      var i :| 0 <= i < |s.rules| && s.rules[i] == rule;
      RuleOfFinds(s.rules, i);
      StepKeepsFit(rule, CarriedOver(s.runtime, rule.id), event, Holds(rule, ApplyEvent(s.snapshot, event), host));
    }
    if !s.recovery {
      forall id | id in s.runtime ensures Coherent(NextRuntime(s, id, event, host).progress) {
        RuleOfSome(s.rules, id);
      }
    }
  }

  ghost predicate ReloadsFit(s: EngineState, steps: seq<Step>) {
    forall k | 0 <= k < |steps| && steps[k].Reload? :: ReloadFits(Run(s, steps[..k]), steps[k].rules)
  }

  lemma NextKeepsFit(s: EngineState, step: Step)
    requires InForce(s) && AllFit(s)
    requires step.Reload? ==> UniqueIds(step.rules) && ReloadFits(s, step.rules)
    ensures AllFit(Next(s, step))
    ensures step.Handle? ==> FaultFree(s, step.event)
  {
    match step
    case Handle(event, host) => HandleKeepsFit(s, event, host);
    case Reload(rules) => SortedRules(rules);
    case _ =>
  }

  /** As long as every reload fits the state it meets, no event of any run faults. */
  lemma {:induction false} RunsNeverFault(s: EngineState, steps: seq<Step>)
    requires InForce(s) && AllFit(s) && Admissible(steps) && ReloadsFit(s, steps)
    ensures AllFit(Run(s, steps))
    ensures forall event :: FaultFree(Run(s, steps), event)
  {
    if steps != [] {
      var before := steps[..|steps| - 1];
      assert forall k | 0 <= k <= |before| :: before[..k] == steps[..k];
      RunsNeverFault(s, before);
      RunKeepsInForce(s, before);
      NextKeepsFit(Run(s, before), steps[|steps| - 1]);
    }
    RunKeepsInForce(s, steps);
    forall event ensures FaultFree(Run(s, steps), event) {
      forall rule | rule in Run(s, steps).rules {
        StepKeepsFit(rule, CarriedOver(Run(s, steps).runtime, rule.id), event, true);
      }
    }
  }

  // ---------------------------------------------------------------- conditions

  /** A rule's condition is judged on the snapshot that has already absorbed the event. A rule that is not waiting and has no
      sustain time fires exactly when nothing suppresses it, its trigger is satisfied and that condition, if any, matches. */
  lemma EngineFiresExact(s: EngineState, rule: Rule, event: Event, host: Host)
    requires CarriedOver(s.runtime, rule.id).armedAt.None? && rule.sustainFor == 0
    ensures var rt := CarriedOver(s.runtime, rule.id);
            React(s, rule, event, host).fired <==>
            && !Suppressed(rule, rt, event) && !OwnFailure(rule, event) && TriggerStep(rule.trigger, rt.progress, event).1
            && (rule.when.Some? ==> ConditionMatches(rule.when.value, ApplyEvent(s.snapshot, event), host))
  {
  }

  /** A waiting rule is disarmed by an event, without firing, exactly when that condition does not match; it fires exactly
      when it does and the time is up. */
  lemma EngineWaitsExact(s: EngineState, rule: Rule, event: Event, host: Host)
    requires CarriedOver(s.runtime, rule.id).armedAt.Some?
    requires !Suppressed(rule, CarriedOver(s.runtime, rule.id), event) && !OwnFailure(rule, event)
    ensures var rt, r := CarriedOver(s.runtime, rule.id), React(s, rule, event, host);
            var matches := rule.when.Some? ==> ConditionMatches(rule.when.value, ApplyEvent(s.snapshot, event), host);
            && (r.fired <==> matches && Elapsed(event.timestamp, rt.armedAt.value) >= rule.sustainFor)
            && (r.runtime.armedAt.None? <==> !matches || r.fired)
            && r.runtime.progress == rt.progress
  {
  }

  // ---------------------------------------------------------------- conflicts, end to end

  /** Higher priority, then smaller identifier. */
  predicate RankLe(p: ActionPlan, q: ActionPlan) {
    p.priority > q.priority || (p.priority == q.priority && TextLe(p.ruleId, q.ruleId))
  }

  lemma ReactionPlansCarryRule(s: EngineState, rule: Rule, event: Event, host: Host)
    ensures forall p | p in React(s, rule, event, host).plans :: p.ruleId == rule.id && p.priority == rule.priority
  {
  }

  ghost predicate PlansOf(reactions: seq<Reaction>, rules: seq<Rule>)
    requires |reactions| == |rules|
  {
    forall i, p | 0 <= i < |rules| && p in reactions[i].plans :: p.ruleId == rules[i].id && p.priority == rules[i].priority
  }

  lemma {:induction false} PlansRanked(reactions: seq<Reaction>, rules: seq<Rule>)
    requires |reactions| == |rules| && PlansOf(reactions, rules) && SortedBy(RuleLe, rules)
    ensures SortedBy(RankLe, AllPlans(reactions))
    ensures forall p | p in AllPlans(reactions) :: exists r | r in rules :: p.ruleId == r.id && p.priority == r.priority
  {
    if reactions != [] {
      var n := |rules| - 1;
      PlansRanked(reactions[..n], rules[..n]);
      forall p, q | p in AllPlans(reactions[..n]) && q in reactions[n].plans ensures RankLe(p, q) {
        var r :| r in rules[..n] && p.ruleId == r.id && p.priority == r.priority;
        assert RuleLe(r, rules[n]);
      }
      forall p, q | p in reactions[n].plans && q in reactions[n].plans ensures RankLe(p, q) {
        TextLeTotal(p.ruleId, p.ruleId);
      }
    }
  }

  /** Candidates come out already in rank order, so the stable sort of conflict resolution moves nothing. */
  lemma CandidatesNeedNoSort(s: EngineState, event: Event, host: Host)
    requires InForce(s)
    ensures SortedBy(RankLe, Candidates(s, event, host))
    ensures !s.recovery ==> HandlePlan(s, event, host) == Survivors(Candidates(s, event, host))
  {
    var reactions := Reactions(s, event, host);
    forall i | 0 <= i < |s.rules| { ReactionPlansCarryRule(s, s.rules[i], event, host); }
    PlansRanked(reactions, s.rules);
    SortKeepsSorted(PriorityLe, Candidates(s, event, host));
  }

  lemma {:induction false} FirstClaimExists(s: seq<ActionPlan>, n: nat) returns (i: nat)
    requires n < |s| && !Keyless(s[n])
    ensures i <= n && KeyOf(s[i]) == KeyOf(s[n]) && FirstClaim(s, i)
  {
    if FirstClaim(s, n) {
      i := n;
    } else {
      var m :| 0 <= m < n && KeyOf(s[m]) == KeyOf(s[n]);
      i := FirstClaimExists(s, m);
    }
  }

  /** For every candidate with a key, exactly one action with that key is in the plan; it ranks at least as high by
      priority and then identifier, and within a rule it is the earliest. */
  lemma ConflictsResolvedByRank(s: EngineState, event: Event, host: Host, n: nat) returns (i: nat, j: nat)
    requires InForce(s) && !s.recovery
    requires n < |Candidates(s, event, host)| && !Keyless(Candidates(s, event, host)[n])
    ensures var all, plan := Candidates(s, event, host), HandlePlan(s, event, host);
            && i <= n && j < |plan| && plan[j] == all[i] && KeyOf(plan[j]) == KeyOf(all[n])
            && (i == n || plan[j].priority > all[n].priority ||
                (plan[j].priority == all[n].priority && Precedes(plan[j].ruleId, all[n].ruleId)))
            && (forall m | 0 <= m < i :: KeyOf(all[m]) != KeyOf(all[n]))
            && (forall m | 0 <= m < |plan| && KeyOf(plan[m]) == KeyOf(all[n]) :: m == j)
  {
    var all := Candidates(s, event, host);
    CandidatesNeedNoSort(s, event, host);
    i := FirstClaimExists(all, n);
    j := FirstClaimSurvivesOnce(all, i);
    TextLeExact(all[i].ruleId, all[n].ruleId);
  }

  predicate ActsOn(plan: ActionPlan, resource: Resource) {
    ResourceOf(plan.action) == Some(resource)
  }

  ghost predicate PlannedOnce(plan: seq<ActionPlan>, resource: Resource) {
    exists j | 0 <= j < |plan| :: ActsOn(plan[j], resource) && forall m | 0 <= m < |plan| && ActsOn(plan[m], resource) :: m == j
  }

  ghost predicate SpelledOneWay(all: seq<ActionPlan>, resource: Resource) {
    forall m, n | 0 <= m < |all| && 0 <= n < |all| && ActsOn(all[m], resource) && ActsOn(all[n], resource) ::
      !SpelledApart(all[m].action, all[n].action)
  }

  /** A resource that candidates act upon is acted upon by exactly one planned action, the one ranked highest, exactly
      when it is not a mount point that they spell in two ways. */
  lemma ResourcePlannedOnceExact(s: EngineState, event: Event, host: Host, n: nat, resource: Resource)
    requires InForce(s) && !s.recovery
    requires n < |Candidates(s, event, host)| && ActsOn(Candidates(s, event, host)[n], resource)
    ensures PlannedOnce(HandlePlan(s, event, host), resource) <==> SpelledOneWay(Candidates(s, event, host), resource)
  {
    var all, plan := Candidates(s, event, host), HandlePlan(s, event, host);
    KeysIdentifyResources(all[n].action, all[n].action);
    var i, j := ConflictsResolvedByRank(s, event, host, n);
    KeysIdentifyResources(plan[j].action, all[n].action);
    if SpelledOneWay(all, resource) {
      forall m | 0 <= m < |plan| && ActsOn(plan[m], resource) ensures m == j {
        PlannedWasCandidate(s, event, host, plan[m]);
        KeysIdentifyResources(plan[m].action, all[n].action);
      }
    }
    if m, k :| 0 <= m < |all| && 0 <= k < |all| && ActsOn(all[m], resource) && ActsOn(all[k], resource) &&
               SpelledApart(all[m].action, all[k].action) {
      TwoSpellingsTwoPlans(s, event, host, m, k, resource);
    }
  }

  lemma PlannedWasCandidate(s: EngineState, event: Event, host: Host, p: ActionPlan)
    requires InForce(s) && p in HandlePlan(s, event, host)
    ensures p in Candidates(s, event, host)
  {
    CandidatesNeedNoSort(s, event, host);
    SurvivorsComeFromCandidates(Candidates(s, event, host), p);
  }

  lemma TwoSpellingsTwoPlans(s: EngineState, event: Event, host: Host, m: nat, k: nat, resource: Resource)
    requires InForce(s) && !s.recovery && m < |Candidates(s, event, host)| && k < |Candidates(s, event, host)|
    requires ActsOn(Candidates(s, event, host)[m], resource) && ActsOn(Candidates(s, event, host)[k], resource)
    requires SpelledApart(Candidates(s, event, host)[m].action, Candidates(s, event, host)[k].action)
    ensures !PlannedOnce(HandlePlan(s, event, host), resource)
  {
    var all, plan := Candidates(s, event, host), HandlePlan(s, event, host);
    KeysIdentifyResources(all[m].action, all[k].action);
    var _, x := ConflictsResolvedByRank(s, event, host, m);
    var _, y := ConflictsResolvedByRank(s, event, host, k);
    KeysIdentifyResources(plan[x].action, all[m].action);
    KeysIdentifyResources(plan[y].action, all[k].action);
    assert x != y && ActsOn(plan[x], resource) && ActsOn(plan[y], resource);
  }

  /** A rule that unmounts one place under two spellings has both unmounts planned. */
  lemma SpellingsBothPlanned(rule: Rule, text: Spelling, event: Event, host: Host)
    requires rule.enabled && rule.sustainFor == 0 && rule.when.None? && rule.trigger == TriggerSpec.Tick && event.kind.Tick?
    requires text != "" && rule.actions == [ActionSpec.Unmount(text), ActionSpec.Unmount(text + "/")]
    ensures var s := NewEngine([rule], "normal", 0);
            InForce(s) && !PlannedOnce(HandlePlan(s, event, host), MountPoint(PathOf(text)))
  {
    var s := NewEngine([rule], "normal", 0);
    NewEngineInForce([rule], "normal", 0);
    SortKeepsSorted(RuleLe, [rule]);
    FreshTickFires(s, rule, event, host);
    SpellingSplitsKey(text);
    TwoSpellingsTwoPlans(s, event, host, 0, 1, MountPoint(PathOf(text)));
  }

  lemma FreshTickFires(s: EngineState, rule: Rule, event: Event, host: Host)
    requires s.rules == [rule] && CarriedOver(s.runtime, rule.id) == FRESH && event.kind.Tick?
    requires rule.enabled && rule.sustainFor == 0 && rule.when.None? && rule.trigger == TriggerSpec.Tick
    ensures Candidates(s, event, host) == Plans(rule, event, rule.actions)
  {
    var reactions := Reactions(s, event, host);
    assert reactions[..0] == [] && AllPlans(reactions[..0]) == [];
    assert [] + reactions[0].plans == reactions[0].plans;
  }

  /** The plan lists its actions in the order of the candidates. */
  lemma PlanKeepsOrder(s: EngineState, event: Event, host: Host) returns (places: seq<nat>)
    requires InForce(s) && !s.recovery
    ensures Picks(Candidates(s, event, host), HandlePlan(s, event, host), places)
  {
    CandidatesNeedNoSort(s, event, host);
    places := SurvivorsInOrder(Candidates(s, event, host));
  }

  /** Notifications, evidence captures and executions never lose a conflict and keep their order. */
  lemma KeylessActionsAllPlanned(s: EngineState, event: Event, host: Host)
    requires InForce(s) && !s.recovery
    ensures Filter(Keyless, HandlePlan(s, event, host)) == Filter(Keyless, Candidates(s, event, host))
  {
    CandidatesNeedNoSort(s, event, host);
    KeylessAllSurvive(Candidates(s, event, host));
  }
}
