/** Mounts across resets of the polling state: exactly which stale mounts the snapshot keeps. */
module MountRuns {
  import opened Options
  import opened Config
  import opened Events
  import opened Requirements
  import opened Polling
  import opened PollingRuns

  lemma OnlyMountsMount(sensor: Sensor, st: PollState, needs: Needs, probes: Probes, first: bool, walk: Walk)
    requires !sensor.MountSensor?
    ensures forall e | e in PollSensor(sensor, st, needs, probes, first, walk).events :: !e.kind.Mount?
  {
  }

  lemma {:induction false} OthersLeaveMounts(o: Observed, kinds: seq<EventKind>)
    requires forall i | 0 <= i < |kinds| :: !kinds[i].Mount?
    ensures AbsorbAll(o, kinds).mounts == o.mounts
  {
    if kinds != [] {
      OthersLeaveMounts(o, kinds[..|kinds| - 1]);
    }
  }

  /** The snapshot's mounts after a mount probe, given those before it and the table probed last. */
  function MountsNow(needs: Needs, probe: Option<MountTable>, first: bool, was: MountTable, mounts: set<Path>): set<Path> {
    if !needs.mounts || probe.None? then mounts
    else if first then mounts + probe.value.Keys
    else mounts + (probe.value.Keys - was.Keys) - (was.Keys - probe.value.Keys)
  }

  lemma SensorMounts(sensor: Sensor, st: PollState, needs: Needs, probes: Probes, first: bool, walk: Walk, o: Observed)
    requires Complete(walk)
    ensures AbsorbAll(o, Kinds(PollSensor(sensor, st, needs, probes, first, walk).events)).mounts ==
            if sensor.MountSensor? then MountsNow(needs, probes.mounts, first, st.mounts, o.mounts) else o.mounts
  {
    var events := PollSensor(sensor, st, needs, probes, first, walk).events;
    if !sensor.MountSensor? {
      OnlyMountsMount(sensor, st, needs, probes, first, walk);
      OthersLeaveMounts(o, Kinds(events));
    } else if needs.mounts && probes.mounts.Some? {
      TaggedKinds(MountSensor, MountDelta(walk, first, st.mounts, probes.mounts.value));
      MountsAfter(walk, first, st.mounts, probes.mounts.value, o);
    } else {
      OthersLeaveMounts(o, Kinds(events));
    }
  }

  lemma {:induction false} PolledMounts(sensors: seq<Sensor>, st: PollState, needs: Needs, probes: Probes, first: bool, walk: Walk, o: Observed)
    requires Distinct(sensors) && Complete(walk)
    ensures AbsorbAll(o, Kinds(PollAll(sensors, st, needs, probes, first, walk).events)).mounts ==
            if MountSensor in sensors then MountsNow(needs, probes.mounts, first, st.mounts, o.mounts) else o.mounts
  {
    if sensors == [] {
      assert Kinds([]) == [];
    } else {
      var front, last := sensors[..|sensors| - 1], sensors[|sensors| - 1];
      var before := PollAll(front, st, needs, probes, first, walk);
      var step := PollSensor(last, before.state, needs, probes, first, walk);
      PolledMounts(front, st, needs, probes, first, walk, o);
      SensorMounts(last, before.state, needs, probes, first, walk, AbsorbAll(o, Kinds(before.events)));
      EventsCompose(o, before.events, step.events);
      MembersOfLast(sensors);
      if last.MountSensor? {
        assert last !in front;
        MountsUntouched(front, st, needs, probes, first, walk);
      }
    }
  }

  lemma CycleMounts(st: PollState, needs: Needs, probes: Probes, walk: Walk, o: Observed)
    requires Complete(walk)
    ensures AbsorbAll(o, Kinds(Cycle(st, needs, probes, walk).events)).mounts ==
            MountsNow(needs, probes.mounts, !st.initialized, st.mounts, o.mounts)
    ensures Cycle(st, needs, probes, walk).state.mounts == Kept(needs.mounts, probes.mounts, st.mounts)
  {
    OrderIsDistinct();
    PolledMounts(ORDER, st, needs, probes, !st.initialized, walk, o);
    PolledState(ORDER, st, needs, probes, !st.initialized, walk);
  }

  // ---------------------------------------------------------------- runs

  /** What the snapshot held mounted when the polling state was last reset. */
  function MountsAtReset(needs: Needs, steps: seq<PollStep>): set<Path> {
    if steps == [] then {}
    else if steps[|steps| - 1].Reset? then SeenAfter(needs, steps[..|steps| - 1]).mounts
    else MountsAtReset(needs, steps[..|steps| - 1])
  }

  /** Everything that was ever found mounted. */
  function EverMounted(h: seq<Probes>): set<Path> {
    if h == [] then {}
    else EverMounted(h[..|h| - 1]) + (if h[|h| - 1].mounts.Some? then h[|h| - 1].mounts.value.Keys else {})
  }

  lemma EverMountedGrows(h: seq<Probes>, probes: Probes)
    ensures EverMounted(h + [probes]) == EverMounted(h) + (if probes.mounts.Some? then probes.mounts.value.Keys else {})
  {
    assert (h + [probes])[..|h|] == h;
  }

  /** One more probe: what was held at the reset and never seen since stays, everything else follows the probe. */
  lemma StaleAfterProbe(needs: Needs, probe: Option<MountTable>, first: bool, was: MountTable, held: set<Path>, ever: set<Path>)
    requires needs.mounts && was.Keys <= ever && (first ==> was.Keys == {})
    ensures var now, seen := Kept(true, probe, was).Keys, ever + (if probe.Some? then probe.value.Keys else {});
            MountsNow(needs, probe, first, was, was.Keys + (held - ever)) == now + (held - seen) && now <= seen
  {
  }

  /** The snapshot's mounts are those probed last, and of the mounts held at the reset those never seen since. */
  lemma {:induction false} MountsExactly(needs: Needs, steps: seq<PollStep>)
    requires Proper(needs, steps) && needs.mounts
    ensures var st, ever := StateAfter(needs, steps), EverMounted(ProbesSince(steps));
            && SeenAfter(needs, steps).mounts == st.mounts.Keys + (MountsAtReset(needs, steps) - ever)
            && st.mounts.Keys <= ever
  {
    if steps != [] {
      var before := steps[..|steps| - 1];
      MountsExactly(needs, before);
      match steps[|steps| - 1]
      case Poll(probes, walk) =>
        var st := StateAfter(needs, before);
        RunAgrees(needs, before);
        CycleMounts(st, needs, probes, walk, SeenAfter(needs, before));
        EverMountedGrows(ProbesSince(before), probes);
        StaleAfterProbe(needs, probes.mounts, !st.initialized, st.mounts, MountsAtReset(needs, before),
                        EverMounted(ProbesSince(before)));
      case Reset(_) =>
      case Other(kind) =>
    }
  }

  /** After resets, the snapshot's mounts equal the last successful probe exactly when every mount held at the reset has
      been seen again since: only then can its disappearance be noticed. */
  lemma MountsFollowExact(needs: Needs, steps: seq<PollStep>, now: int, mode: string, events: seq<Event>)
    requires Proper(needs, steps) && needs.mounts && LastOk(PickMounts, ProbesSince(steps)).Some?
    requires Carry(events, SentKinds(needs, steps))
    ensures Replay(DefaultSnapshot(now, mode), events).mounts == LastOk(PickMounts, ProbesSince(steps)).value.Keys <==>
            MountsAtReset(needs, steps) <= EverMounted(ProbesSince(steps))
  {
    ReplayShows(needs, steps, now, mode, events);
    RunRemembers(needs, steps);
    MountsExactly(needs, steps);
    var probed, ever := StateAfter(needs, steps).mounts.Keys, EverMounted(ProbesSince(steps));
    StaleOrNot(probed, MountsAtReset(needs, steps), ever);
  }

  lemma StaleOrNot(probed: set<Path>, held: set<Path>, ever: set<Path>)
    requires probed <= ever
    ensures probed + (held - ever) == probed <==> held <= ever
  {
    var stale := held - ever;
    if probed + stale == probed {
      forall p | p in held ensures p in ever {
        assert p in stale ==> p in probed;
      }
    }
  }
}
