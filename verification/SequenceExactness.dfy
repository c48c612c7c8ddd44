/** The sequence automaton against its declarative meaning: a greedy match begun at the latest first step. */
module SequenceExactness {
  import opened Options
  import opened Config
  import opened Events
  import opened Matching
  import opened RuleRuntimes
  import opened RuleRuns

  function ProgressAfter(steps: seq<TriggerSpec>, within: nat, fed: seq<Event>): Progress {
    if fed == [] then NO_PROGRESS
    else SequenceStep(ProgressAfter(steps, within, fed[..|fed| - 1]), steps, within, fed[|fed| - 1]).0
  }

  predicate CompletesAt(steps: seq<TriggerSpec>, within: nat, fed: seq<Event>, j: nat)
    requires j < |fed|
  {
    SequenceStep(ProgressAfter(steps, within, fed[..j]), steps, within, fed[j]).1
  }

  predicate Matches(steps: seq<TriggerSpec>, k: nat, event: Event) {
    k < |steps| && TriggerMatches(steps[k], event.kind)
  }

  /** The last event matching the first step. */
  function LatestStart(steps: seq<TriggerSpec>, fed: seq<Event>): Option<nat> {
    if fed == [] then None
    else if Matches(steps, 0, fed[|fed| - 1]) then Some(|fed| - 1)
    else LatestStart(steps, fed[..|fed| - 1])
  }

  /** Steps matched by scanning greedily from the first step at `i` to the end of `fed`. */
  function Greedy(steps: seq<TriggerSpec>, fed: seq<Event>, i: nat): nat
    requires i < |fed|
  {
    if i == |fed| - 1 then 1
    else
      var k := Greedy(steps, fed[..|fed| - 1], i);
      if Matches(steps, k, fed[|fed| - 1]) then k + 1 else k
  }

  ghost predicate Nondecreasing(fed: seq<Event>) {
    forall i, j | 0 <= i < j < |fed| :: fed[i].timestamp <= fed[j].timestamp
  }

  /** No event serves both as first step and as a later one. */
  ghost predicate FirstStepDistinct(steps: seq<TriggerSpec>, fed: seq<Event>) {
    forall e, k: nat | e in fed && 0 < k && Matches(steps, 0, e) :: !Matches(steps, k, e)
  }

  lemma {:induction false} LatestStartIsLast(steps: seq<TriggerSpec>, fed: seq<Event>)
    ensures match LatestStart(steps, fed)
            case None => forall m | 0 <= m < |fed| :: !Matches(steps, 0, fed[m])
            case Some(i) => && i < |fed| && Matches(steps, 0, fed[i])
                            && forall m | i < m < |fed| :: !Matches(steps, 0, fed[m])
  {
    if fed != [] && !Matches(steps, 0, fed[|fed| - 1]) {
      LatestStartIsLast(steps, fed[..|fed| - 1]);
    }
  }

  /** What the automaton must have stored, read off the events. */
  function Meaning(steps: seq<TriggerSpec>, within: nat, fed: seq<Event>): Progress {
    LatestStartIsLast(steps, fed);
    match LatestStart(steps, fed)
    case None => NO_PROGRESS
    case Some(i) =>
      if Greedy(steps, fed, i) < |steps| && Elapsed(fed[|fed| - 1].timestamp, fed[i].timestamp) <= within
      then Progress(Greedy(steps, fed, i), Some(fed[i].timestamp)) else NO_PROGRESS
  }

  lemma {:induction false} GreedyBounded(steps: seq<TriggerSpec>, fed: seq<Event>, i: nat)
    requires i < |fed| && |steps| >= 1
    ensures 1 <= Greedy(steps, fed, i) <= |steps|
  {
    if i < |fed| - 1 {
      GreedyBounded(steps, fed[..|fed| - 1], i);
    }
  }

  lemma {:induction false} ProgressMeaning(steps: seq<TriggerSpec>, within: nat, fed: seq<Event>)
    requires |steps| >= 2 && Nondecreasing(fed) && FirstStepDistinct(steps, fed)
    ensures ProgressAfter(steps, within, fed) == Meaning(steps, within, fed)
  {
    if fed != [] {
      var before, last := fed[..|fed| - 1], fed[|fed| - 1];
      ProgressMeaning(steps, within, before);
      LatestStartIsLast(steps, before);
      var p := ProgressAfter(steps, within, before);
      if LatestStart(steps, before).Some? {
        var i := LatestStart(steps, before).value;
        GreedyBounded(steps, before, i);
        assert before[|before| - 1].timestamp <= last.timestamp;
        assert Matches(steps, 0, last) ==> !Matches(steps, p.index, last) || p.index == 0;
      }
    }
  }

  /** The greedy match from the first step at `i` ends exactly at `j`, inside the window. */
  predicate GreedyEndsAt(steps: seq<TriggerSpec>, within: nat, fed: seq<Event>, i: nat, j: nat)
    requires i < j < |fed|
  {
    && Greedy(steps, fed[..j], i) == |steps| - 1 && Greedy(steps, fed[..j + 1], i) == |steps|
    && fed[j].timestamp - fed[i].timestamp <= within
  }

  lemma CompletionByIndex(p: Progress, steps: seq<TriggerSpec>, within: nat, event: Event)
    requires |steps| >= 2 && Coherent(p) && p.index < |steps|
    ensures SequenceStep(p, steps, within, event).1 <==>
            !Expired(p, within, event) && p.index == |steps| - 1 && Matches(steps, p.index, event)
  {
  }

  lemma GreedyLastStep(steps: seq<TriggerSpec>, fed: seq<Event>, i: nat, j: nat)
    requires i < j < |fed|
    ensures var k := Greedy(steps, fed[..j], i);
            Greedy(steps, fed[..j + 1], i) == if Matches(steps, k, fed[j]) then k + 1 else k
  {
    assert fed[..j + 1][..j] == fed[..j];
  }

  lemma CompletionFromStart(steps: seq<TriggerSpec>, within: nat, fed: seq<Event>, i: nat, j: nat, p: Progress)
    requires |steps| >= 2 && i < j < |fed| && Nondecreasing(fed)
    requires p == if Greedy(steps, fed[..j], i) < |steps| && Elapsed(fed[j - 1].timestamp, fed[i].timestamp) <= within
                  then Progress(Greedy(steps, fed[..j], i), Some(fed[i].timestamp)) else NO_PROGRESS
    ensures SequenceStep(p, steps, within, fed[j]).1 <==> GreedyEndsAt(steps, within, fed, i, j)
  {
    GreedyBounded(steps, fed[..j], i);
    CompletionByIndex(p, steps, within, fed[j]);
    if p == NO_PROGRESS {
      assert fed[j - 1].timestamp <= fed[j].timestamp;
    } else {
      LastStepCompletes(steps, within, fed, i, j);
    }
  }

  lemma LastStepCompletes(steps: seq<TriggerSpec>, within: nat, fed: seq<Event>, i: nat, j: nat)
    requires |steps| >= 2 && i < j < |fed| && fed[i].timestamp <= fed[j].timestamp
    ensures var g := Greedy(steps, fed[..j], i);
            GreedyEndsAt(steps, within, fed, i, j) <==>
            Elapsed(fed[j].timestamp, fed[i].timestamp) <= within && g == |steps| - 1 && Matches(steps, g, fed[j])
  {
    GreedyLastStep(steps, fed, i, j);
  }

  /** A sequence completes at `j` exactly when the greedy match of its later steps, begun after the latest first-step
      event before `j`, ends at `j` inside the window. */
  lemma SequenceExact(steps: seq<TriggerSpec>, within: nat, fed: seq<Event>, j: nat)
    requires |steps| >= 2 && Nondecreasing(fed) && FirstStepDistinct(steps, fed) && j < |fed|
    ensures CompletesAt(steps, within, fed, j) <==>
            exists i: nat :: i < j && LatestStart(steps, fed[..j]) == Some(i) && GreedyEndsAt(steps, within, fed, i, j)
  {
    var before := fed[..j];
    ProgressMeaning(steps, within, before);
    LatestStartIsLast(steps, before);
    var p := ProgressAfter(steps, within, before);
    match LatestStart(steps, before)
    case None => CompletionByIndex(p, steps, within, fed[j]);
    case Some(i) => CompletionFromStart(steps, within, fed, i, j, p);
  }

  // ---------------------------------------------------------------- from the rule to its automaton

  /** The events of a history that reach the sequence automaton; it starts over when recovery is switched on. */
  function FedEvents(h: History): seq<Event> {
    if h == [] then []
    else
      var before, last := h[..|h| - 1], h[|h| - 1];
      match last
      case Barrier => []
      case Observe(rule, event, _) =>
        FedEvents(before) + (if ReachesTrigger(rule, RuntimeAfter(before), event) then [event] else [])
  }

  lemma {:induction false} RuleFollowsAutomaton(h: History, steps: seq<TriggerSpec>, within: nat)
    requires SequenceKept(h, steps, within)
    ensures RuntimeAfter(h).progress == ProgressAfter(steps, within, FedEvents(h))
  {
    if h != [] && h[|h| - 1].Observe? {
      var before, last := h[..|h| - 1], h[|h| - 1];
      RuleFollowsAutomaton(before, steps, within);
      FeedingStep(last.rule, RuntimeAfter(before), last.event, last.holds);
      if ReachesTrigger(last.rule, RuntimeAfter(before), last.event) {
        ProgressFed(steps, within, FedEvents(before), last.event);
      } else {
        assert FedEvents(h) == FedEvents(before);
      }
    }
  }

  lemma FeedingStep(rule: Rule, rt: RuleRuntime, event: Event, holds: bool)
    ensures RuleStep(rule, rt, event, holds).runtime.progress ==
            if ReachesTrigger(rule, rt, event) then TriggerStep(rule.trigger, rt.progress, event).0 else rt.progress
  {
  }

  lemma ProgressFed(steps: seq<TriggerSpec>, within: nat, fed: seq<Event>, event: Event)
    ensures ProgressAfter(steps, within, fed + [event]) == SequenceStep(ProgressAfter(steps, within, fed), steps, within, event).0
  {
    assert (fed + [event])[..|fed|] == fed;
  }

  /** A rule's trigger is hit at `j` exactly when the event is fed and completes the automaton's run. */
  lemma HitIsCompletion(h: History, steps: seq<TriggerSpec>, within: nat, j: nat)
    requires SequenceKept(h, steps, within) && j < |h|
    ensures var fed, next := FedEvents(h[..j]), FedEvents(h[..j + 1]);
            HitAt(h, j) <==> |next| == |fed| + 1 && CompletesAt(steps, within, next, |fed|)
  {
    RuleFollowsAutomaton(h[..j], steps, within);
    assert h[..j + 1][..j] == h[..j];
    var fed, next := FedEvents(h[..j]), FedEvents(h[..j + 1]);
    assert |next| == |fed| + 1 ==> next[..|fed|] == fed;
  }
}
