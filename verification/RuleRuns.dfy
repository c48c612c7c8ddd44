/** What holds over every run of one rule: a history of observed events and recovery barriers. The rule may be
    reconfigured between observations, so each observation carries the rule then in force. */
module RuleRuns {
  import opened Options
  import opened Config
  import opened Events
  import opened Matching
  import opened RuleRuntimes

  /** `Observe` is an event evaluated while recovery is off, with the verdict of the rule's condition;
      `Barrier` is recovery being switched on. */
  datatype RuleInput = Observe(rule: Rule, event: Event, holds: bool) | Barrier

  type History = seq<RuleInput>

  function ClearProgress(rt: RuleRuntime): RuleRuntime {
    rt.(armedAt := None, progress := NO_PROGRESS)
  }

  function Advance(rt: RuleRuntime, input: RuleInput): RuleRuntime {
    match input
    case Observe(rule, event, holds) => RuleStep(rule, rt, event, holds).runtime
    case Barrier => ClearProgress(rt)
  }

  function RuntimeAfter(h: History): RuleRuntime {
    if h == [] then FRESH else Advance(RuntimeAfter(h[..|h| - 1]), h[|h| - 1])
  }

  predicate FiresAt(h: History, j: nat)
    requires j < |h|
  {
    h[j].Observe? && RuleStep(h[j].rule, RuntimeAfter(h[..j]), h[j].event, h[j].holds).fired
  }

  /** The trigger, sequence or not, is satisfied at `j`. */
  predicate HitAt(h: History, j: nat)
    requires j < |h|
  {
    h[j].Observe? && TriggerHit(h[j].rule, RuntimeAfter(h[..j]), h[j].event)
  }

  lemma PrefixOfPrefix<T>(h: seq<T>, i: nat, j: nat)
    requires j <= i <= |h|
    ensures h[..i][..j] == h[..j]
  {
  }

  // ---------------------------------------------------------------- cooldown and once-per-boot

  function FiringTimes(h: History): seq<int> {
    if h == [] then []
    else FiringTimes(h[..|h| - 1]) + (if FiresAt(h, |h| - 1) then [h[|h| - 1].event.timestamp] else [])
  }

  lemma FiringStep(rule: Rule, rt: RuleRuntime, event: Event, holds: bool)
    ensures var r := RuleStep(rule, rt, event, holds);
            if r.fired then r.runtime.lastFired == Some(event.timestamp) && r.runtime.firedOnce
            else r.runtime.lastFired == rt.lastFired && r.runtime.firedOnce == rt.firedOnce
  {
  }

  lemma {:induction false} LastFiringRemembered(h: History)
    ensures var times := FiringTimes(h);
            && RuntimeAfter(h).lastFired == (if times == [] then None else Some(times[|times| - 1]))
            && (RuntimeAfter(h).firedOnce <==> times != [])
  {
    if h != [] {
      LastFiringRemembered(h[..|h| - 1]);
      var last := h[|h| - 1];
      if last.Observe? {
        FiringStep(last.rule, RuntimeAfter(h[..|h| - 1]), last.event, last.holds);
      }
    }
  }

  ghost predicate CooldownKept(h: History, cooldown: nat) {
    forall i | 0 <= i < |h| && h[i].Observe? :: h[i].rule.cooldown == cooldown
  }

  /** Consecutive firings are a full cooldown apart, whatever the clock does in between. */
  lemma {:induction false} CooldownSeparates(h: History, cooldown: nat, k: nat)
    requires cooldown > 0 && CooldownKept(h, cooldown) && 0 < k < |FiringTimes(h)|
    ensures FiringTimes(h)[k] - FiringTimes(h)[k - 1] >= cooldown
  {
    var before := h[..|h| - 1];
    LastFiringRemembered(before);
    if k < |FiringTimes(before)| {
      CooldownSeparates(before, cooldown, k);
    }
  }

  lemma {:induction false} FiringsSpan(h: History, cooldown: nat, k: nat)
    requires cooldown > 0 && CooldownKept(h, cooldown) && k < |FiringTimes(h)|
    ensures FiringTimes(h)[k] - FiringTimes(h)[0] >= k * cooldown
  {
    if k > 0 {
      FiringsSpan(h, cooldown, k - 1);
      CooldownSeparates(h, cooldown, k);
      assert k * cooldown == (k - 1) * cooldown + cooldown;
    }
  }

  lemma {:induction false} OncePerBootFiresOnce(h: History)
    requires forall i | 0 <= i < |h| && h[i].Observe? :: h[i].rule.oncePerBoot
    ensures |FiringTimes(h)| <= 1
  {
    if h != [] {
      OncePerBootFiresOnce(h[..|h| - 1]);
      LastFiringRemembered(h[..|h| - 1]);
    }
  }

  // ---------------------------------------------------------------- sustained conditions

  ghost predicate Fixed(h: History, rule: Rule) {
    forall i | 0 <= i < |h| && h[i].Observe? :: h[i].rule == rule
  }

  ghost predicate TimesNondecreasing(h: History) {
    forall i, j | 0 <= i < j < |h| && h[i].Observe? && h[j].Observe? :: h[i].event.timestamp <= h[j].event.timestamp
  }

  predicate ArmsAt(h: History, a: nat)
    requires a < |h|
  {
    HitAt(h, a) && h[a].holds
  }

  /** Since arming at `a`, up to but not including `j`: no recovery, and at every event either the condition held
      without the time being up, or one of the rule's own sensors failed. */
  ghost predicate Waiting(h: History, rule: Rule, a: nat, j: nat)
    requires a < j <= |h| && h[a].Observe?
  {
    forall m | a < m < j ::
      && h[m].Observe?
      && (OwnFailure(rule, h[m].event) ||
          (h[m].holds && Elapsed(h[m].event.timestamp, h[a].event.timestamp) < rule.sustainFor))
  }

  /** The rule is waiting since `a`, and nothing has come to suppress it. */
  ghost predicate WaitsSince(h: History, rule: Rule, a: nat, rt: RuleRuntime) {
    && a < |h| && h[a].Observe? && Waiting(h, rule, a, |h|)
    && rt.armedAt == Some(h[a].event.timestamp)
    && !Suppressed(rule, rt, h[a].event)
  }

  ghost predicate ArmedSince(h: History, rule: Rule, a: nat) {
    WaitsSince(h, rule, a, RuntimeAfter(h)) && ArmsAt(h, a)
  }

  lemma {:induction false} StaysArmed(h: History, rule: Rule, a: nat)
    requires Fixed(h, rule) && TimesNondecreasing(h) && rule.sustainFor > 0
    requires a < |h| && ArmsAt(h, a) && Waiting(h, rule, a, |h|)
    ensures ArmedSince(h, rule, a)
  {
    var before := h[..|h| - 1];
    if a < |h| - 1 {
      PrefixOfPrefix(h, |h| - 1, a);
      StaysArmed(before, rule, a);
    }
  }

  lemma ArmedStep(rule: Rule, rt: RuleRuntime, event: Event, holds: bool)
    ensures var next := RuleStep(rule, rt, event, holds).runtime;
            next.armedAt.Some? ==>
              && next.lastFired == rt.lastFired && next.firedOnce == rt.firedOnce
              && if rt.armedAt.None? then TriggerHit(rule, rt, event) && holds && next.armedAt == Some(event.timestamp)
                 else && next.armedAt == rt.armedAt
                      && (Suppressed(rule, rt, event) || OwnFailure(rule, event) ||
                          (holds && Elapsed(event.timestamp, rt.armedAt.value) < rule.sustainFor))
  {
  }

  lemma ArmsAtPrefix(h: History, n: nat, a: nat)
    requires a < n <= |h|
    ensures ArmsAt(h[..n], a) <==> ArmsAt(h, a)
  {
    PrefixOfPrefix(h, n, a);
  }

  lemma StillUnsuppressed(rule: Rule, rt: RuleRuntime, armed: Event, event: Event)
    requires !Suppressed(rule, rt, armed) && armed.timestamp <= event.timestamp
    ensures !Suppressed(rule, rt, event)
  {
  }

  lemma WaitingGoesOn(h: History, rule: Rule, a: nat, rt: RuleRuntime, next: RuleRuntime)
    requires h != [] && h[|h| - 1].Observe? && WaitsSince(h[..|h| - 1], rule, a, rt)
    requires next.armedAt == rt.armedAt && next.lastFired == rt.lastFired && next.firedOnce == rt.firedOnce
    requires var last := h[|h| - 1];
             OwnFailure(rule, last.event) ||
             (last.holds && Elapsed(last.event.timestamp, rt.armedAt.value) < rule.sustainFor)
    ensures WaitsSince(h, rule, a, next)
  {
    assert h[..|h| - 1][a] == h[a];
  }

  lemma {:induction false} ArmedHasWitness(h: History, rule: Rule) returns (a: nat)
    requires Fixed(h, rule) && TimesNondecreasing(h) && rule.sustainFor > 0
    requires RuntimeAfter(h).armedAt.Some?
    ensures ArmedSince(h, rule, a)
  {
    var before, last := h[..|h| - 1], h[|h| - 1];
    assert last.Observe?;
    if RuntimeAfter(before).armedAt.None? {
      ArmedStep(rule, RuntimeAfter(before), last.event, last.holds);
      a := |h| - 1;
    } else {
      a := ArmedHasWitness(before, rule);
      ArmsAtPrefix(h, |h| - 1, a);
      StillUnsuppressed(rule, RuntimeAfter(before), h[a].event, last.event);
      ArmedStep(rule, RuntimeAfter(before), last.event, last.holds);
      WaitingGoesOn(h, rule, a, RuntimeAfter(before), RuntimeAfter(h));
    }
  }

  /** A sustained rule fires at `j` exactly when it was armed by a satisfied trigger and condition, has been waiting
      ever since with no recovery in between, the condition holds now, and the time is up for the first time. */
  lemma SustainExact(h: History, rule: Rule, j: nat)
    requires Fixed(h, rule) && TimesNondecreasing(h) && rule.sustainFor > 0 && j < |h|
    ensures FiresAt(h, j) <==>
            && h[j].Observe? && h[j].holds && !OwnFailure(rule, h[j].event)
            && exists a: nat :: a < j && ArmsAt(h, a) && Waiting(h, rule, a, j) &&
                                h[j].event.timestamp - h[a].event.timestamp >= rule.sustainFor
  {
    var before := h[..j];
    if FiresAt(h, j) {
      var a := ArmedHasWitness(before, rule);
      PrefixOfPrefix(h, j, a);
      assert ArmsAt(h, a) && Waiting(h, rule, a, j);
    }
    if h[j].Observe? && h[j].holds && !OwnFailure(rule, h[j].event) {
      forall a: nat | a < j && ArmsAt(h, a) && Waiting(h, rule, a, j) &&
                      h[j].event.timestamp - h[a].event.timestamp >= rule.sustainFor
        ensures FiresAt(h, j)
      {
        PrefixOfPrefix(h, j, a);
        StaysArmed(before, rule, a);
      }
    }
  }

  // ---------------------------------------------------------------- rules that fire at once

  /** What holds a rule back at `j`, read off its earlier firings. */
  predicate HeldBack(h: History, rule: Rule, j: nat)
    requires j < |h| && h[j].Observe?
  {
    var times := FiringTimes(h[..j]);
    || !rule.enabled
    || (times != [] && (rule.oncePerBoot || Elapsed(h[j].event.timestamp, times[|times| - 1]) < rule.cooldown))
  }

  lemma {:induction false} NeverArmed(h: History, rule: Rule)
    requires Fixed(h, rule) && rule.sustainFor == 0
    ensures RuntimeAfter(h).armedAt.None?
  {
    if h != [] {
      NeverArmed(h[..|h| - 1], rule);
    }
  }

  /** Without a sustain time, a rule fires exactly when its condition and its trigger hold at an event that is not a
      failure of one of its sensors, and neither its cooldown nor once-per-boot holds it back. */
  lemma ImmediateExact(h: History, rule: Rule, j: nat)
    requires Fixed(h, rule) && rule.sustainFor == 0 && j < |h|
    ensures FiresAt(h, j) <==>
            && h[j].Observe? && h[j].holds && !HeldBack(h, rule, j) && !OwnFailure(rule, h[j].event)
            && TriggerStep(rule.trigger, RuntimeAfter(h[..j]).progress, h[j].event).1
  {
    NeverArmed(h[..j], rule);
    LastFiringRemembered(h[..j]);
  }

  // ---------------------------------------------------------------- sequences

  ghost predicate SequenceKept(h: History, steps: seq<TriggerSpec>, within: nat) {
    forall i | 0 <= i < |h| && h[i].Observe? :: h[i].rule.trigger == TriggerSpec.Sequence(steps, within)
  }

  /** `w` lists observations, in order, that match the first `|w|` steps, each within the window of the first. */
  ghost predicate MatchesSteps(h: History, steps: seq<TriggerSpec>, within: nat, w: seq<nat>) {
    && |w| <= |steps|
    && (forall k | 0 <= k < |w| ::
          w[k] < |h| && h[w[k]].Observe? && TriggerMatches(steps[k], h[w[k]].event.kind))
    && (forall k | 0 <= k < |w| :: Elapsed(h[w[k]].event.timestamp, h[w[0]].event.timestamp) <= within)
    && (forall k | 0 < k < |w| :: w[k - 1] < w[k])
  }

  /** Nothing from before `start` counts: no completion and no recovery lies at or after it, before `end`. */
  ghost predicate Undisturbed(h: History, start: nat, end: nat)
    requires end <= |h|
  {
    forall m | start <= m < end :: h[m].Observe? && !HitAt(h, m)
  }

  /** The progress stored after `h` is accounted for by a list of observations. */
  ghost predicate Witnessed(h: History, steps: seq<TriggerSpec>, within: nat, w: seq<nat>) {
    var p := RuntimeAfter(h).progress;
    && Coherent(p) && (p.index < |steps| || p.index == 0)
    && |w| == p.index && MatchesSteps(h, steps, within, w)
    && (w != [] ==> p.started == Some(h[w[0]].event.timestamp) && Undisturbed(h, w[0], |h|))
  }

  lemma WitnessExtends(h: History, g: History, steps: seq<TriggerSpec>, within: nat, w: seq<nat>)
    requires h <= g && MatchesSteps(h, steps, within, w)
    ensures MatchesSteps(g, steps, within, w)
  {
  }

  lemma AppendMatch(h: History, steps: seq<TriggerSpec>, within: nat, v: seq<nat>, j: nat)
    requires j < |h| && h[j].Observe? && MatchesSteps(h, steps, within, v) && |v| < |steps|
    requires TriggerMatches(steps[|v|], h[j].event.kind) && forall k | 0 <= k < |v| :: v[k] < j
    requires v != [] ==> Elapsed(h[j].event.timestamp, h[v[0]].event.timestamp) <= within
    ensures MatchesSteps(h, steps, within, v + [j])
  {
  }

  lemma UndisturbedPrefix(h: History, start: nat, j: nat)
    requires j <= |h| && Undisturbed(h[..j], start, j)
    ensures Undisturbed(h, start, j)
  {
    forall m | start <= m < j ensures h[m].Observe? && !HitAt(h, m) {
      PrefixOfPrefix(h, j, m);
      assert h[..j][m] == h[m];
    }
  }

  lemma UndisturbedExtends(h: History, start: nat)
    requires h != [] && start < |h|
    requires h[|h| - 1].Observe? && !HitAt(h, |h| - 1)
    requires Undisturbed(h[..|h| - 1], start, |h| - 1)
    ensures Undisturbed(h, start, |h|)
  {
    UndisturbedPrefix(h, start, |h| - 1);
  }

  /** How one observation moves the progress: it is kept, starts over, or gains a step. */
  ghost predicate ProgressMoves(p: Progress, q: Progress, steps: seq<TriggerSpec>, within: nat, event: Event) {
    || q == p
    || (q == Progress(1, Some(event.timestamp)) && 1 < |steps| && TriggerMatches(steps[0], event.kind))
    || (q == Progress(p.index + 1, p.started) && 0 < p.index && q.index < |steps|
        && p.started.Some? && Elapsed(event.timestamp, p.started.value) <= within
        && TriggerMatches(steps[p.index], event.kind))
  }

  lemma ProgressStep(rule: Rule, rt: RuleRuntime, event: Event, holds: bool)
    requires rule.trigger.Sequence? && Coherent(rt.progress)
    requires rt.progress.index < |rule.trigger.steps| || rt.progress.index == 0
    ensures var q := RuleStep(rule, rt, event, holds).runtime.progress;
            q != NO_PROGRESS ==>
              && ProgressMoves(rt.progress, q, rule.trigger.steps, rule.trigger.within, event)
              && !TriggerHit(rule, rt, event)
  {
  }

  lemma MovedWitness(h: History, steps: seq<TriggerSpec>, within: nat, v: seq<nat>, p: Progress, q: Progress)
    returns (w: seq<nat>)
    requires h != [] && h[|h| - 1].Observe? && q != NO_PROGRESS && Coherent(p)
    requires MatchesSteps(h, steps, within, v) && |v| == p.index < |steps| && forall k | 0 <= k < |v| :: v[k] < |h| - 1
    requires v != [] ==> p.started == Some(h[v[0]].event.timestamp)
    requires ProgressMoves(p, q, steps, within, h[|h| - 1].event)
    ensures |w| == q.index > 0 && MatchesSteps(h, steps, within, w)
    ensures Coherent(q) && q.started == Some(h[w[0]].event.timestamp) && q.index < |steps|
    ensures w[0] == |h| - 1 || (v != [] && w[0] == v[0])
  {
    if q == p {
      w := v;
    } else if q == Progress(1, Some(h[|h| - 1].event.timestamp)) {
      AppendMatch(h, steps, within, [], |h| - 1);
      w := [|h| - 1];
    } else {
      AppendMatch(h, steps, within, v, |h| - 1);
      w := v + [|h| - 1];
    }
  }

  lemma {:induction false} ProgressWitness(h: History, steps: seq<TriggerSpec>, within: nat) returns (w: seq<nat>)
    requires SequenceKept(h, steps, within)
    ensures Witnessed(h, steps, within, w)
  {
    w := [];
    if h != [] && RuntimeAfter(h).progress != NO_PROGRESS {
      var before, last := h[..|h| - 1], h[|h| - 1];
      var v := ProgressWitness(before, steps, within);
      WitnessExtends(before, h, steps, within, v);
      ProgressStep(last.rule, RuntimeAfter(before), last.event, last.holds);
      w := MovedWitness(h, steps, within, v, RuntimeAfter(before).progress, RuntimeAfter(h).progress);
      UndisturbedExtends(h, w[0]);
    }
  }

  lemma CompletingStep(rule: Rule, rt: RuleRuntime, event: Event)
    requires rule.trigger.Sequence? && TriggerHit(rule, rt, event) && Coherent(rt.progress)
    ensures var p, steps := rt.progress, rule.trigger.steps;
            && |steps| > 0 && TriggerMatches(steps[|steps| - 1], event.kind)
            && (|steps| > 1 ==> p.index == |steps| - 1 && Elapsed(event.timestamp, p.started.value) <= rule.trigger.within)
  {
  }

  /** Every completion of a sequence is witnessed by observations matching all steps in order within the window,
      all later than any earlier completion and than any recovery. */
  lemma SequenceSound(h: History, steps: seq<TriggerSpec>, within: nat, j: nat) returns (w: seq<nat>)
    requires SequenceKept(h, steps, within) && j < |h| && HitAt(h, j)
    ensures |w| == |steps| > 0 && w[|w| - 1] == j && MatchesSteps(h, steps, within, w)
    ensures Undisturbed(h, w[0], j)
  {
    var before := h[..j];
    var v := ProgressWitness(before, steps, within);
    WitnessExtends(before, h, steps, within, v);
    CompletingStep(h[j].rule, RuntimeAfter(before), h[j].event);
    if |steps| == 1 {
      AppendMatch(h, steps, within, [], j);
      w := [j];
    } else {
      AppendMatch(h, steps, within, v, j);
      UndisturbedPrefix(h, v[0], j);
      w := v + [j];
    }
  }

  /** With the steps kept, the stored index always fits them, so no event can fault. */
  lemma SequenceNeverFaults(h: History, steps: seq<TriggerSpec>, within: nat, event: Event)
    requires SequenceKept(h, steps, within)
    ensures Coherent(RuntimeAfter(h).progress)
    ensures !SequenceFaults(RuntimeAfter(h).progress, steps, within, event)
  {
    var w := ProgressWitness(h, steps, within);
  }

  // ---------------------------------------------------------------- recovery

  /** Switching recovery on forgets arming and progress and keeps cooldown and once-per-boot memory. */
  lemma BarrierForgetsProgressOnly(h: History)
    ensures var before, after := RuntimeAfter(h), RuntimeAfter(h + [Barrier]);
            && after.armedAt.None? && after.progress == NO_PROGRESS
            && after.lastFired == before.lastFired && after.firedOnce == before.firedOnce
            && FiringTimes(h + [Barrier]) == FiringTimes(h)
  {
    assert (h + [Barrier])[..|h|] == h;
  }

  /** After recovery at `b`, completions and sustained firings rest on later events alone. */
  lemma RecoveryBarrier(h: History, rule: Rule, b: nat, j: nat)
    requires b < j < |h| && h[b].Barrier? && Fixed(h, rule)
    ensures rule.trigger.Sequence? && HitAt(h, j) ==>
              exists w :: && |w| == |rule.trigger.steps| > 0 && b < w[0] && w[|w| - 1] == j
                          && MatchesSteps(h, rule.trigger.steps, rule.trigger.within, w)
    ensures TimesNondecreasing(h) && rule.sustainFor > 0 && FiresAt(h, j) ==>
              exists a: nat :: b < a < j && ArmsAt(h, a) && Waiting(h, rule, a, j)
  {
    if rule.trigger.Sequence? && HitAt(h, j) {
      var w := SequenceSound(h, rule.trigger.steps, rule.trigger.within, j);
      assert b < w[0];
    }
    if TimesNondecreasing(h) && rule.sustainFor > 0 && FiresAt(h, j) {
      SustainExact(h, rule, j);
      var a: nat :| a < j && ArmsAt(h, a) && Waiting(h, rule, a, j);
      assert b < a by {
        assert b != a && !(a < b < j);
      }
    }
  }
}
