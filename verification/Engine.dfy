/** The policy engine: a mutating loop over rules, specified as one independent step per rule. */
module Engine {
  import opened Options
  import opened Ordering
  import opened Config
  import opened Events
  import opened Matching
  import opened RuleRuntimes
  import opened RuleRuns
  import opened Conflicts

  datatype EngineState = EngineState(
    rules: seq<Rule>, runtime: map<string, RuleRuntime>, snapshot: Snapshot, recovery: bool)

  /** Descending priority, then ascending identifier. */
  predicate RuleLe(left: Rule, right: Rule) {
    left.priority > right.priority || (left.priority == right.priority && TextLe(left.id, right.id))
  }

  function Ids(rules: seq<Rule>): set<string> {
    set r | r in rules :: r.id
  }

  function RuleOf(rules: seq<Rule>, id: string): Option<Rule> {
    if rules == [] then None else if rules[0].id == id then Some(rules[0]) else RuleOf(rules[1..], id)
  }

  ghost predicate InForce(s: EngineState) {
    UniqueIds(s.rules) && SortedBy(RuleLe, s.rules) && s.runtime.Keys == Ids(s.rules)
  }

  function NewEngine(rules: seq<Rule>, mode: string, now: int): EngineState {
    EngineState(StableSort(RuleLe, rules), map id | id in Ids(rules) :: FRESH, DefaultSnapshot(now, mode), false)
  }

  function WithRecovery(s: EngineState, enabled: bool): EngineState {
    s.(recovery := enabled,
       runtime := if enabled then map id | id in s.runtime :: ClearProgress(s.runtime[id]) else s.runtime)
  }

  /** The runtime a new set of rules starts with: kept by identifier. */
  function CarriedOver(runtime: map<string, RuleRuntime>, id: string): RuleRuntime {
    if id in runtime then runtime[id] else FRESH
  }

  function WithRules(s: EngineState, rules: seq<Rule>): EngineState {
    s.(rules := StableSort(RuleLe, rules), runtime := map id | id in Ids(rules) :: CarriedOver(s.runtime, id))
  }

  predicate Holds(rule: Rule, snapshot: Snapshot, host: Host) {
    rule.when.None? || ConditionMatches(rule.when.value, snapshot, host)
  }

  /** What one rule does with an event: a function of that rule and its own runtime. */
  function React(s: EngineState, rule: Rule, event: Event, host: Host): Reaction {
    RuleStep(rule, CarriedOver(s.runtime, rule.id), event, Holds(rule, ApplyEvent(s.snapshot, event), host))
  }

  function NextRuntime(s: EngineState, id: string, event: Event, host: Host): RuleRuntime {
    match RuleOf(s.rules, id)
    case None => CarriedOver(s.runtime, id)
    case Some(rule) => React(s, rule, event, host).runtime
  }

  function HandleState(s: EngineState, event: Event, host: Host): EngineState {
    var t := s.(snapshot := ApplyEvent(s.snapshot, event));
    if s.recovery then t else t.(runtime := map id | id in s.runtime :: NextRuntime(s, id, event, host))
  }

  function Reactions(s: EngineState, event: Event, host: Host): seq<Reaction> {
    seq(|s.rules|, i requires 0 <= i < |s.rules| => React(s, s.rules[i], event, host))
  }

  function AllPlans(reactions: seq<Reaction>): seq<ActionPlan> {
    if reactions == [] then [] else AllPlans(reactions[..|reactions| - 1]) + reactions[|reactions| - 1].plans
  }

  function Candidates(s: EngineState, event: Event, host: Host): seq<ActionPlan> {
    AllPlans(Reactions(s, event, host))
  }

  function HandlePlan(s: EngineState, event: Event, host: Host): seq<ActionPlan> {
    if s.recovery then [] else Resolve(Candidates(s, event, host))
  }

  /** No rule would index past the end of its sequence on this event. */
  predicate FaultFree(s: EngineState, event: Event) {
    s.recovery || forall rule | rule in s.rules :: !RuleFaults(rule, CarriedOver(s.runtime, rule.id), event)
  }

  // ---------------------------------------------------------------- rules by identifier

  lemma {:induction false} RuleOfFinds(rules: seq<Rule>, i: nat)
    requires UniqueIds(rules) && i < |rules|
    ensures RuleOf(rules, rules[i].id) == Some(rules[i])
  {
    if i > 0 {
      assert rules[0].id != rules[i].id;
      RuleOfFinds(rules[1..], i - 1);
    }
  }

  lemma {:induction false} RuleOfSome(rules: seq<Rule>, id: string)
    ensures id in Ids(rules) <==> RuleOf(rules, id).Some?
    ensures RuleOf(rules, id).Some? ==> RuleOf(rules, id).value in rules && RuleOf(rules, id).value.id == id
  {
    if rules != [] && rules[0].id != id {
      RuleOfSome(rules[1..], id);
    }
  }

  lemma RuleLeIsTotalPreorder()
    ensures TotalPreorder(RuleLe)
  {
    forall x, y ensures RuleLe(x, y) || RuleLe(y, x) {
      TextLeTotal(x.id, y.id);
    }
    forall x, y, z | RuleLe(x, y) && RuleLe(y, z) ensures RuleLe(x, z) {
      if x.priority == y.priority == z.priority {
        TextLeTransitive(x.id, y.id, z.id);
      }
    }
  }

  lemma SortedRules(rules: seq<Rule>)
    requires UniqueIds(rules)
    ensures var sorted := StableSort(RuleLe, rules);
            && UniqueIds(sorted) && SortedBy(RuleLe, sorted) && Ids(sorted) == Ids(rules)
            && (forall r :: r in sorted <==> r in rules)
  {
    RuleLeIsTotalPreorder();
    SortSorts(RuleLe, rules);
    SortPermutes(RuleLe, rules);
    UniqueIdsPermuted(rules, StableSort(RuleLe, rules));
  }

  /** In the order of evaluation a rule has the higher priority than any later one, or the same and the identifier that
      comes first. */
  lemma SortedRulesRanked(rules: seq<Rule>, i: nat, j: nat)
    requires i < j < |StableSort(RuleLe, rules)|
    ensures var x, y := StableSort(RuleLe, rules)[i], StableSort(RuleLe, rules)[j];
            x.priority > y.priority || (x.priority == y.priority && Precedes(x.id, y.id))
  {
    RuleLeIsTotalPreorder();
    SortSorts(RuleLe, rules);
    TextLeExact(StableSort(RuleLe, rules)[i].id, StableSort(RuleLe, rules)[j].id);
  }

  lemma UniqueIdsPermuted(a: seq<Rule>, b: seq<Rule>)
    requires UniqueIds(a) && multiset(a) == multiset(b)
    ensures UniqueIds(b)
  {
    forall i, j | 0 <= i < j < |b| ensures b[i].id != b[j].id {
      if b[i].id == b[j].id {
        assert b[i] in multiset(b) && b[j] in multiset(b);
        var m :| 0 <= m < |a| && a[m] == b[i];
        var n :| 0 <= n < |a| && a[n] == b[j];
        assert m == n;
        TwiceInMultiset(b, i, j);
        OnceInMultiset(a, m);
      }
    }
  }

  lemma TwiceInMultiset(b: seq<Rule>, i: nat, j: nat)
    requires i < j < |b| && b[i] == b[j]
    ensures multiset(b)[b[i]] >= 2
  {
    assert b == b[..j] + [b[j]] + b[j + 1..];
    assert b[i] in b[..j];
    assert multiset(b[..j])[b[i]] >= 1;
  }

  lemma OnceInMultiset(a: seq<Rule>, m: nat)
    requires UniqueIds(a) && m < |a|
    ensures multiset(a)[a[m]] == 1
  {
    assert a == a[..m] + [a[m]] + a[m + 1..];
    assert a[m] !in a[..m] && a[m] !in a[m + 1..];
    assert multiset(a[..m])[a[m]] == 0 && multiset(a[m + 1..])[a[m]] == 0;
  }

  // ---------------------------------------------------------------- the mutable engine

  /** How many rules have this identifier. */
  function Bearers(rules: seq<Rule>, id: string): nat {
    if rules == [] then 0
    else Bearers(rules[..|rules| - 1], id) + (if rules[|rules| - 1].id == id then 1 else 0)
  }

  /** Of rules that share an identifier the first takes the old runtime and the last overwrites it with a fresh one. */
  function Moved(runtime: map<string, RuleRuntime>, rules: seq<Rule>, id: string): RuleRuntime {
    if Bearers(rules, id) > 1 then FRESH else CarriedOver(runtime, id)
  }

  lemma {:induction false} BearersByIds(rules: seq<Rule>, id: string)
    ensures Bearers(rules, id) > 0 <==> exists i | 0 <= i < |rules| :: rules[i].id == id
  {
    if rules != [] {
      var front, last := rules[..|rules| - 1], rules[|rules| - 1];
      BearersByIds(front, id);
      assert forall i | 0 <= i < |front| :: front[i] == rules[i];
    }
  }

  lemma {:induction false} UniqueBearer(rules: seq<Rule>, id: string)
    requires UniqueIds(rules)
    ensures Bearers(rules, id) <= 1
  {
    if rules != [] {
      var front, last := rules[..|rules| - 1], rules[|rules| - 1];
      assert forall i | 0 <= i < |front| :: front[i] == rules[i] && rules[i].id != last.id;
      UniqueBearer(front, id);
      BearersByIds(front, id);
    }
  }

  lemma MovedMore(runtime: map<string, RuleRuntime>, rules: seq<Rule>, rule: Rule, id: string)
    ensures Moved(runtime, rules + [rule], id) ==
            if id != rule.id then Moved(runtime, rules, id)
            else if id in Ids(rules) then FRESH else CarriedOver(runtime, id)
  {
    assert (rules + [rule])[..|rules|] == rules;
    BearersByIds(rules, id);
  }

  ghost predicate MovedInto(runtime: map<string, RuleRuntime>, rules: seq<Rule>, next: map<string, RuleRuntime>) {
    next.Keys == Ids(rules) && forall id | id in next :: next[id] == Moved(runtime, rules, id)
  }

  lemma MoveOne(runtime: map<string, RuleRuntime>, rules: seq<Rule>, rule: Rule, next: map<string, RuleRuntime>)
    requires MovedInto(runtime, rules, next)
    ensures MovedInto(runtime, rules + [rule],
                       next[rule.id := if rule.id in Ids(rules) then FRESH else CarriedOver(runtime, rule.id)])
  {
    assert Ids(rules + [rule]) == Ids(rules) + {rule.id};
    forall id | id in Ids(rules + [rule]) { MovedMore(runtime, rules, rule, id); }
  }

  /** Moves each rule's runtime out of the old map, or starts it afresh. */
  method MoveRuntimes(runtime: map<string, RuleRuntime>, sorted: seq<Rule>) returns (next: map<string, RuleRuntime>)
    ensures MovedInto(runtime, sorted, next)
  {
    var remaining := runtime;
    next := map[];
    for i := 0 to |sorted|
      invariant MovedInto(runtime, sorted[..i], next)
      invariant forall id :: id in remaining <==> id in runtime && id !in Ids(sorted[..i])
      invariant forall id | id in remaining :: remaining[id] == runtime[id]
    {
      var id := sorted[i].id;
      assert sorted[..i + 1] == sorted[..i] + [sorted[i]];
      assert Ids(sorted[..i + 1]) == Ids(sorted[..i]) + {id};
      MoveOne(runtime, sorted[..i], sorted[i], next);
      next := next[id := if id in remaining then remaining[id] else FRESH];
      remaining := remaining - {id};
    }
    assert sorted[..|sorted|] == sorted;
  }

  lemma UniqueMoved(runtime: map<string, RuleRuntime>, rules: seq<Rule>, next: map<string, RuleRuntime>)
    requires UniqueIds(rules) && MovedInto(runtime, rules, next)
    ensures forall id | id in next :: next[id] == CarriedOver(runtime, id)
  {
    forall id | id in next { UniqueBearer(rules, id); }
  }

  /** With unique identifiers every runtime is simply carried over. */
  lemma UniqueReplacement(s: EngineState, rules: seq<Rule>, next: map<string, RuleRuntime>)
    requires UniqueIds(rules) && MovedInto(s.runtime, StableSort(RuleLe, rules), next)
    ensures var t := s.(rules := StableSort(RuleLe, rules), runtime := next); InForce(t) && t == WithRules(s, rules)
  {
    SortedRules(rules);
    UniqueMoved(s.runtime, StableSort(RuleLe, rules), next);
    assert next == WithRules(s, rules).runtime;
  }

  lemma ReactionsMakeNextRuntime(s: EngineState, event: Event, host: Host, runtime: map<string, RuleRuntime>)
    requires InForce(s) && !s.recovery && runtime.Keys == s.runtime.Keys
    requires forall i | 0 <= i < |s.rules| :: runtime[s.rules[i].id] == Reactions(s, event, host)[i].runtime
    ensures runtime == HandleState(s, event, host).runtime
  {
    forall id | id in runtime ensures runtime[id] == NextRuntime(s, id, event, host) {
      RuleOfSome(s.rules, id);
    }
  }

  /** The loop over the rules, after the snapshot has absorbed the event. It writes each rule's runtime back as it
      goes, yet ends where independent per-rule reactions to the runtimes found at the start do. */
  method EvaluateRules(rules: seq<Rule>, runtime: map<string, RuleRuntime>, snapshot: Snapshot, event: Event,
                       host: Host, ghost reactions: seq<Reaction>)
    returns (next: map<string, RuleRuntime>, candidates: seq<ActionPlan>)
    requires UniqueIds(rules) && runtime.Keys == Ids(rules) && |reactions| == |rules|
    requires forall i | 0 <= i < |rules| :: !RuleFaults(rules[i], runtime[rules[i].id], event)
    requires forall i | 0 <= i < |rules| ::
               reactions[i] == RuleStep(rules[i], runtime[rules[i].id], event, Holds(rules[i], snapshot, host))
    ensures next.Keys == runtime.Keys
    ensures forall i | 0 <= i < |rules| :: next[rules[i].id] == reactions[i].runtime
    ensures candidates == AllPlans(reactions)
  {
    next, candidates := runtime, [];
    for i := 0 to |rules|
      invariant WrittenUpTo(rules, runtime, reactions, i, next)
      invariant candidates == AllPlans(reactions[..i])
    {
      var rule := rules[i];
      var current := if rule.id in next then next[rule.id] else FRESH;
      var holds := rule.when.None? || ConditionMatches(rule.when.value, snapshot, host);
      assert reactions[..i + 1][..i] == reactions[..i];
      current, candidates := Evaluate(rule, current, event, holds, candidates);
      WriteBack(rules, runtime, reactions, i, next);
      next := next[rule.id := current];
    }
    assert reactions[..|rules|] == reactions;
  }

  /** The first `i` rules have their new runtime, the others still the old one. */
  ghost predicate WrittenUpTo(rules: seq<Rule>, runtime: map<string, RuleRuntime>, reactions: seq<Reaction>, i: nat,
                              next: map<string, RuleRuntime>)
    requires |reactions| == |rules| && runtime.Keys == Ids(rules)
  {
    && next.Keys == runtime.Keys
    && (forall m | 0 <= m < |rules| ::
          next[rules[m].id] == if m < i then reactions[m].runtime else runtime[rules[m].id])
  }

  lemma WriteBack(rules: seq<Rule>, runtime: map<string, RuleRuntime>, reactions: seq<Reaction>, i: nat,
                  next: map<string, RuleRuntime>)
    requires |reactions| == |rules| && runtime.Keys == Ids(rules) && UniqueIds(rules) && i < |rules|
    requires WrittenUpTo(rules, runtime, reactions, i, next)
    ensures WrittenUpTo(rules, runtime, reactions, i + 1, next[rules[i].id := reactions[i].runtime])
  {
    assert forall m | 0 <= m < |rules| && m != i :: rules[m].id != rules[i].id;
  }

  class PolicyEngine {
    var rules: seq<Rule>
    var runtime: map<string, RuleRuntime>
    const snapshot: SystemSnapshot
    var recoveryMode: bool

    function View(): EngineState
      reads this, snapshot
    {
      EngineState(rules, runtime, snapshot.View(), recoveryMode)
    }

    ghost predicate Valid()
      reads this, snapshot
    {
      InForce(View())
    }

    constructor (rules: seq<Rule>, initialMode: string, now: int)
      ensures View() == NewEngine(rules, initialMode, now) && fresh(snapshot)
      ensures UniqueIds(rules) ==> Valid()
    {
      this.rules := StableSort(RuleLe, rules);
      runtime := map id | id in Ids(rules) :: FRESH;
      snapshot := new SystemSnapshot(now, initialMode);
      recoveryMode := false;
      new;
      if UniqueIds(rules) {
        SortedRules(rules);
      }
    }

    method SetRecoveryMode(enabled: bool)
      modifies this
      ensures View() == WithRecovery(old(View()), enabled) && (old(Valid()) ==> Valid())
    {
      recoveryMode := enabled;
      if enabled {
        var todo := runtime.Keys;
        while todo != {}
          invariant todo <= runtime.Keys == old(runtime).Keys
          invariant forall id | id in runtime ::
                      runtime[id] == if id in todo then old(runtime)[id] else ClearProgress(old(runtime)[id])
          invariant rules == old(rules) && recoveryMode == enabled
        {
          var id :| id in todo;
          runtime := runtime[id := runtime[id].(armedAt := None, progress := Progress(0, None))];
          todo := todo - {id};
        }
      }
      assert runtime == WithRecovery(old(View()), enabled).runtime;
    }

    method SetMode(mode: string)
      modifies snapshot
      ensures View() == old(View()).(snapshot := old(View()).snapshot.(mode := mode)) && (old(Valid()) ==> Valid())
    {
      snapshot.mode := mode;
    }

    method ReplaceRules(replacement: seq<Rule>)
      modifies this
      ensures rules == StableSort(RuleLe, replacement) && recoveryMode == old(recoveryMode)
      ensures MovedInto(old(runtime), rules, runtime)
      ensures UniqueIds(replacement) ==> Valid() && View() == WithRules(old(View()), replacement)
    {
      var sorted := StableSort(RuleLe, replacement);
      var next := MoveRuntimes(runtime, sorted);
      if UniqueIds(replacement) {
        UniqueReplacement(View(), replacement, next);
      }
      rules, runtime := sorted, next;
    }

    method Handle(event: Event, host: Host) returns (plan: seq<ActionPlan>)
      requires Valid() && FaultFree(View(), event)
      modifies this, snapshot
      ensures Valid() && View() == HandleState(old(View()), event, host)
      ensures plan == HandlePlan(old(View()), event, host)
    {
      ghost var s := View();
      snapshot.Apply(event);
      if recoveryMode {
        return [];
      }
      var candidates;
      runtime, candidates := EvaluateRules(rules, runtime, snapshot.View(), event, host, Reactions(s, event, host));
      ReactionsMakeNextRuntime(s, event, host, runtime);
      plan := ResolveConflicts(candidates);
    }
  }
}
