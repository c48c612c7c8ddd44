/** Conflict resolution: a stable sort by priority, then the first claim of each key wins. */
module Conflicts {
  import opened Options
  import opened Ordering
  import opened Config
  import opened RuleRuntimes

  predicate PriorityLe(left: ActionPlan, right: ActionPlan) {
    left.priority >= right.priority
  }

  function KeyOf(plan: ActionPlan): Option<string> {
    ConflictKey(plan.action)
  }

  predicate Keyless(plan: ActionPlan) {
    KeyOf(plan).None?
  }

  /** Nothing before `i` claims the same key. */
  predicate FirstClaim(s: seq<ActionPlan>, i: nat)
    requires i < |s|
  {
    Keyless(s[i]) || forall m | 0 <= m < i :: KeyOf(s[m]) != KeyOf(s[i])
  }

  function Survivors(s: seq<ActionPlan>): seq<ActionPlan> {
    if s == [] then []
    else Survivors(s[..|s| - 1]) + (if FirstClaim(s, |s| - 1) then [s[|s| - 1]] else [])
  }

  function Resolve(candidates: seq<ActionPlan>): seq<ActionPlan> {
    Survivors(StableSort(PriorityLe, candidates))
  }

  predicate ClaimedBefore(s: seq<ActionPlan>, i: nat, key: string)
    requires i <= |s|
  {
    exists m | 0 <= m < i :: KeyOf(s[m]) == Some(key)
  }

  method ResolveConflicts(candidates: seq<ActionPlan>) returns (plan: seq<ActionPlan>)
    ensures plan == Resolve(candidates)
  {
    var sorted := StableSort(PriorityLe, candidates);
    var claimed: set<string> := {};
    plan := [];
    for i := 0 to |sorted|
      invariant plan == Survivors(sorted[..i])
      invariant forall k :: k in claimed <==> ClaimedBefore(sorted, i, k)
    {
      assert sorted[..i + 1][..i] == sorted[..i];
      assert FirstClaim(sorted[..i + 1], i) <==> FirstClaim(sorted, i);
      var key := KeyOf(sorted[i]);
      if key.None? {
        plan := plan + [sorted[i]];
      } else if key.value !in claimed {
        claimed := claimed + {key.value};
        plan := plan + [sorted[i]];
      }
    }
    assert sorted[..|sorted|] == sorted;
  }

  // ---------------------------------------------------------------- what survives

  lemma {:induction false} SurvivorsComeFromCandidates(s: seq<ActionPlan>, p: ActionPlan)
    requires p in Survivors(s)
    ensures exists i | 0 <= i < |s| :: s[i] == p && FirstClaim(s, i)
  {
    var before := s[..|s| - 1];
    if p in Survivors(before) {
      SurvivorsComeFromCandidates(before, p);
      var i :| 0 <= i < |before| && before[i] == p && FirstClaim(before, i);
      assert s[i] == p && FirstClaim(s, i);
    }
  }

  /** Every key that is claimed at all survives exactly once, held by its first claimant. */
  lemma {:induction false} FirstClaimSurvivesOnce(s: seq<ActionPlan>, i: nat) returns (j: nat)
    requires i < |s| && !Keyless(s[i]) && FirstClaim(s, i)
    ensures j < |Survivors(s)| && Survivors(s)[j] == s[i]
    ensures forall m | 0 <= m < |Survivors(s)| && KeyOf(Survivors(s)[m]) == KeyOf(s[i]) :: m == j
  {
    var before := s[..|s| - 1];
    if i == |s| - 1 {
      j := |Survivors(before)|;
      forall m | 0 <= m < |Survivors(before)| ensures KeyOf(Survivors(before)[m]) != KeyOf(s[i]) {
        SurvivorsComeFromCandidates(before, Survivors(before)[m]);
      }
    } else {
      assert FirstClaim(before, i);
      j := FirstClaimSurvivesOnce(before, i);
    }
  }

  /** `t` is `s` at the given places, in order. */
  ghost predicate Picks(s: seq<ActionPlan>, t: seq<ActionPlan>, places: seq<nat>) {
    && |places| == |t| && (forall i | 0 <= i < |t| :: places[i] < |s| && t[i] == s[places[i]])
    && (forall i, j | 0 <= i < j < |t| :: places[i] < places[j])
  }

  lemma PicksMore(s: seq<ActionPlan>, t: seq<ActionPlan>, places: seq<nat>)
    requires s != [] && Picks(s[..|s| - 1], t, places)
    ensures Picks(s, t, places) && Picks(s, t + [s[|s| - 1]], places + [|s| - 1])
  {
    assert forall i | 0 <= i < |t| :: s[..|s| - 1][places[i]] == s[places[i]];
  }

  /** Survivors stand in the order they had. */
  lemma {:induction false} SurvivorsInOrder(s: seq<ActionPlan>) returns (places: seq<nat>)
    ensures Picks(s, Survivors(s), places)
  {
    places := [];
    if s != [] {
      places := SurvivorsInOrder(s[..|s| - 1]);
      PicksMore(s, Survivors(s[..|s| - 1]), places);
      if FirstClaim(s, |s| - 1) {
        places := places + [|s| - 1];
      }
    }
  }

  /** Actions without a key all survive, in their order. */
  lemma {:induction false} KeylessAllSurvive(s: seq<ActionPlan>)
    ensures Filter(Keyless, Survivors(s)) == Filter(Keyless, s)
  {
    if s != [] {
      var before, last := s[..|s| - 1], s[|s| - 1];
      KeylessAllSurvive(before);
      if FirstClaim(s, |s| - 1) {
        assert Survivors(s)[..|Survivors(s)| - 1] == Survivors(before);
      } else {
        assert !Keyless(last) && Survivors(s) == Survivors(before);
      }
    }
  }
}
