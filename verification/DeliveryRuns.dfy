/** From the sensors through the daemon: an event whose audit record cannot be written is dropped before the engine sees
    it, so the snapshot follows the recorded events and not the sent ones. */
module DeliveryRuns {
  import opened Options
  import opened Config
  import opened Events
  import opened Matching
  import opened RuleRuntimes
  import opened Engine
  import opened Validation
  import opened Audit
  import opened Ledger
  import opened Runtime
  import opened RuntimeRuns
  import opened Requirements
  import opened PollingRuns

  // ---------------------------------------------------------------- one subject at a time

  /** What a report can be about. */
  datatype Subject = TheWifi | TheNetwork | TheSession | ThePower | AMount(path: Path) | AProcess(name: string)
                   | AService(name: string) | APort(port: PortKey)

  datatype Reading = WifiIs(wifi: WifiState) | NetworkIs(network: NetworkState) | SessionIs(session: SessionView)
                   | PowerIs(power: PowerState) | Present(present: bool) | Active(active: Option<bool>)

  function ReadingOf(o: Observed, subject: Subject): Reading {
    match subject
    case TheWifi => WifiIs(o.wifi)
    case TheNetwork => NetworkIs(o.network)
    case TheSession => SessionIs(o.session)
    case ThePower => PowerIs(o.power)
    case AMount(path) => Present(path in o.mounts)
    case AProcess(name) => Present(name in o.processes)
    case AService(name) => Active(if name in o.services then Some(o.services[name]) else None)
    case APort(port) => Present(port in o.ports)
  }

  /** What an event reports, if it reports anything of the polled state. */
  function ReportOf(kind: EventKind): Option<(Subject, Reading)> {
    match kind
    case Wifi(connected, ssid, bssid) => Some((TheWifi, WifiIs(WifiState(connected, ssid, bssid))))
    case Network(online, iface, vpn) => Some((TheNetwork, NetworkIs(NetworkState(online, iface, vpn))))
    case Session(state, user, remote) => Some((TheSession, SessionIs(SessionView(Some(state), user, remote))))
    case Power(onAc, battery, lid) => Some((ThePower, PowerIs(PowerState(onAc, battery, lid))))
    case Mount(device, path, _) => Some((AMount(path), Present(!device.Removed?)))
    case Process(name, running) => Some((AProcess(name), Present(running)))
    case Service(name, active) => Some((AService(name), Active(Some(active))))
    case Port(port, protocol, open) => Some((APort((protocol, port)), Present(open)))
    case _ => None
  }

  /** The last thing said about a subject. */
  function LastReport(kinds: seq<EventKind>, subject: Subject, unsaid: Reading): Reading {
    if kinds == [] then unsaid
    else
      var report := ReportOf(kinds[|kinds| - 1]);
      if report.Some? && report.value.0 == subject then report.value.1
      else LastReport(kinds[..|kinds| - 1], subject, unsaid)
  }

  lemma AbsorbReport(o: Observed, kind: EventKind, subject: Subject)
    ensures var report := ReportOf(kind);
            ReadingOf(Absorb(o, kind), subject) ==
            if report.Some? && report.value.0 == subject then report.value.1 else ReadingOf(o, subject)
  {
  }

  /** A snapshot says of each subject what was last reported about it. */
  lemma {:induction false} ReadingIsLastReport(o: Observed, kinds: seq<EventKind>, subject: Subject)
    ensures ReadingOf(AbsorbAll(o, kinds), subject) == LastReport(kinds, subject, ReadingOf(o, subject))
  {
    if kinds != [] {
      var front := kinds[..|kinds| - 1];
      ReadingIsLastReport(o, front, subject);
      AbsorbReport(AbsorbAll(o, front), kinds[|kinds| - 1], subject);
    }
  }

  lemma ReadingsDetermine(a: Observed, b: Observed)
    requires forall subject :: ReadingOf(a, subject) == ReadingOf(b, subject)
    ensures a == b
  {
    assert ReadingOf(a, TheWifi) == ReadingOf(b, TheWifi) && ReadingOf(a, TheNetwork) == ReadingOf(b, TheNetwork);
    assert ReadingOf(a, TheSession) == ReadingOf(b, TheSession) && ReadingOf(a, ThePower) == ReadingOf(b, ThePower);
    CollectionsDetermine(a, b);
  }

  lemma CollectionsDetermine(a: Observed, b: Observed)
    requires forall subject :: ReadingOf(a, subject) == ReadingOf(b, subject)
    ensures a.mounts == b.mounts && a.processes == b.processes && a.services == b.services && a.ports == b.ports
  {
    forall path ensures path in a.mounts <==> path in b.mounts {
      assert ReadingOf(a, AMount(path)) == ReadingOf(b, AMount(path));
    }
    forall name ensures name in a.processes <==> name in b.processes {
      assert ReadingOf(a, AProcess(name)) == ReadingOf(b, AProcess(name));
    }
    forall port ensures port in a.ports <==> port in b.ports {
      assert ReadingOf(a, APort(port)) == ReadingOf(b, APort(port));
    }
    forall name ensures (name in a.services <==> name in b.services) && (name in a.services ==> a.services[name] == b.services[name]) {
      assert ReadingOf(a, AService(name)) == ReadingOf(b, AService(name));
    }
  }

  // ---------------------------------------------------------------- what reaches the engine

  lemma OutcomeKeepsSeen(s: RuntimeState, ending: Ending, fails: bool)
    ensures Seen(AfterEnding(s, ending, fails).0.engine.snapshot) == Seen(s.engine.snapshot)
  {
  }

  lemma {:induction false} PlansKeepSeen(s: RuntimeState, codec: Codec, event: Event, plans: seq<ActionPlan>, ios: nat -> PlanIo)
    ensures Seen(ExecutePlans(s, codec, event, plans, ios).0.engine.snapshot) == Seen(s.engine.snapshot)
  {
    if plans != [] {
      var n := |plans| - 1;
      PlansKeepSeen(s, codec, event, plans[..n], ios);
      var t := ExecutePlans(s, codec, event, plans[..n], ios).0;
      var (st, ending) := RunPlan(t.store, codec, t.context, event, plans[n], ios(n));
      OutcomeKeepsSeen(t.(store := st), ending, ios(n).effectFails);
    }
  }

  predicate Recorded(s: RuntimeState, codec: Codec, event: Event, io: Io) {
    AppendSucceeds(s.store.tables, codec.hasher, EventEntry(codec, event), io)
  }

  lemma ProcessSeen(s: RuntimeState, codec: Codec, event: Event, host: Host, io: Io, ios: nat -> PlanIo)
    ensures Seen(ProcessEvent(s, codec, event, host, io, ios).engine.snapshot) ==
            if Recorded(s, codec, event, io) then Absorb(Seen(s.engine.snapshot), event.kind) else Seen(s.engine.snapshot)
  {
    if Recorded(s, codec, event, io) {
      var st := LogEntry(s.store, codec, EventEntry(codec, event), io).0;
      var handled := s.(store := st, engine := HandleState(s.engine, event, host));
      PlansKeepSeen(handled, codec, event, HandlePlan(s.engine, event, host), ios);
      SeenByPayload(s.engine.snapshot, event);
    }
  }

  /** The payloads of the events processed in a run, recorded or not. */
  function SentIn(commands: seq<Command>): seq<EventKind> {
    if commands == [] then []
    else
      var last := commands[|commands| - 1];
      SentIn(commands[..|commands| - 1]) + (if last.Process? then [last.event.kind] else [])
  }

  /** What a command lets the engine hear. */
  function Heard(s: RuntimeState, codec: Codec, command: Command): seq<EventKind> {
    if command.Process? && Recorded(s, codec, command.event, command.io) then [command.event.kind] else []
  }

  /** The payloads of those that were recorded. */
  ghost function RecordedIn(s: RuntimeState, codec: Codec, env: Surroundings, commands: seq<Command>): seq<EventKind> {
    if commands == [] then []
    else
      var before := commands[..|commands| - 1];
      RecordedIn(s, codec, env, before) + Heard(Run(s, codec, env, before), codec, commands[|commands| - 1])
  }

  lemma ModeKeepsSeen(s: RuntimeState, codec: Codec, mode: string, fails: bool, note: string, io: Io)
    ensures Seen(ChangeMode(s, codec, mode, fails, note, io).engine.snapshot) == Seen(s.engine.snapshot)
  {
  }

  lemma RecoveryKeepsSeen(s: RuntimeState, codec: Codec, enabled: bool, fails: bool, note: string, io: Io)
    ensures ChangeRecovery(s, codec, enabled, fails, note, io).engine.snapshot == s.engine.snapshot
  {
  }

  lemma AdoptKeepsSeen(s: RuntimeState, codec: Codec, config: Config, note: string, io: Io)
    ensures Adopt(s, codec, config, note, io).engine.snapshot == s.engine.snapshot
  {
  }

  lemma StepSeen(s: RuntimeState, codec: Codec, env: Surroundings, command: Command)
    requires !command.Restart?
    ensures Seen(Next(s, codec, env, command).engine.snapshot) == AbsorbAll(Seen(s.engine.snapshot), Heard(s, codec, command))
  {
    match command
    case Process(event, host, io, ios) =>
      ProcessSeen(s, codec, event, host, io, ios);
      AbsorbOne(Seen(s.engine.snapshot), event.kind);
    case SetMode(mode, fails, note, io) => ModeKeepsSeen(s, codec, mode, fails, note, io);
    case Recovery(enabled, fails, note, io) => RecoveryKeepsSeen(s, codec, enabled, fails, note, io);
    case Reload(config, _, note, io) => AdoptKeepsSeen(s, codec, config, note, io);
    case Announce(_, _, _) =>
  }

  /** Between restarts the snapshot is what the recorded events make of it, whatever else the daemon does. */
  lemma {:induction false} SnapshotIsRecorded(s: RuntimeState, codec: Codec, env: Surroundings, commands: seq<Command>)
    requires forall i | 0 <= i < |commands| :: !commands[i].Restart?
    ensures Seen(Run(s, codec, env, commands).engine.snapshot) ==
            AbsorbAll(Seen(s.engine.snapshot), RecordedIn(s, codec, env, commands))
  {
    if commands != [] {
      var before, last := commands[..|commands| - 1], commands[|commands| - 1];
      SnapshotIsRecorded(s, codec, env, before);
      StepSeen(Run(s, codec, env, before), codec, env, last);
      AbsorbConcat(Seen(s.engine.snapshot), RecordedIn(s, codec, env, before), Heard(Run(s, codec, env, before), codec, last));
    }
  }

  // ---------------------------------------------------------------- agreement with the probes, through the daemon

  lemma SameReadings(a: Observed, b: Observed)
    ensures a == b <==> forall subject :: ReadingOf(a, subject) == ReadingOf(b, subject)
  {
    if forall subject :: ReadingOf(a, subject) == ReadingOf(b, subject) {
      ReadingsDetermine(a, b);
    }
  }

  /** For every subject the last recorded report says what the last sent one says. */
  ghost predicate NothingOutdated(recorded: seq<EventKind>, sent: seq<EventKind>) {
    forall subject :: LastReport(recorded, subject, ReadingOf(UNSEEN, subject)) == LastReport(sent, subject, ReadingOf(UNSEEN, subject))
  }

  lemma AbsorbedAlike(recorded: seq<EventKind>, sent: seq<EventKind>)
    ensures AbsorbAll(UNSEEN, recorded) == AbsorbAll(UNSEEN, sent) <==> NothingOutdated(recorded, sent)
  {
    var a, b := AbsorbAll(UNSEEN, recorded), AbsorbAll(UNSEEN, sent);
    SameReadings(a, b);
    forall subject
      ensures ReadingOf(a, subject) == LastReport(recorded, subject, ReadingOf(UNSEEN, subject))
      ensures ReadingOf(b, subject) == LastReport(sent, subject, ReadingOf(UNSEEN, subject))
    {
      ReadingIsLastReport(UNSEEN, recorded, subject);
      ReadingIsLastReport(UNSEEN, sent, subject);
    }
  }

  /** The daemon's snapshot is the one that replays everything the sensors sent exactly when, subject by subject, the last
      recorded report and the last sent report say the same; then it follows the probes. */
  lemma DaemonFollowsProbesExact(config: Config, codec: Codec, env: Surroundings, now: int, commands: seq<Command>,
                                 needs: Needs, steps: seq<PollStep>)
    requires Proper(needs, steps) && SentIn(commands) == SentKinds(needs, steps)
    requires forall i | 0 <= i < |commands| :: !commands[i].Restart?
    ensures var o := Seen(Run(FirstBoot(config, now), codec, env, commands).engine.snapshot);
            var recorded := RecordedIn(FirstBoot(config, now), codec, env, commands);
            && (o == SeenAfter(needs, steps) <==> NothingOutdated(recorded, SentKinds(needs, steps)))
            && (o == SeenAfter(needs, steps) ==> Follows(needs, o, ProbesSince(steps), NeverReset(steps)))
  {
    SnapshotIsRecorded(FirstBoot(config, now), codec, env, commands);
    SeenIsAbsorbed(needs, steps);
    AbsorbedAlike(RecordedIn(FirstBoot(config, now), codec, env, commands), SentKinds(needs, steps));
    PayloadsFollowProbes(needs, steps);
  }

  /** A Wi-Fi report that cannot be recorded is lost: the snapshot goes on showing no connection. */
  lemma LostReport(config: Config, codec: Codec, env: Surroundings, event: Event, host: Host, io: Io, ios: nat -> PlanIo)
    requires event.kind.Wifi? && event.kind.connected && io.fails
    ensures var t := Run(FirstBoot(config, 0), codec, env, [Command.Process(event, host, io, ios)]);
            !t.engine.snapshot.wifi.connected && !NothingOutdated([], [event.kind])
  {
    var s, command := FirstBoot(config, 0), Command.Process(event, host, io, ios);
    assert [command][..0] == [];
    assert Run(s, codec, env, [command]) == Next(s, codec, env, command);
    ProcessSeen(s, codec, event, host, io, ios);
    assert Seen(s.engine.snapshot).wifi == NO_WIFI;
    assert LastReport([event.kind], TheWifi, ReadingOf(UNSEEN, TheWifi)) != LastReport([], TheWifi, ReadingOf(UNSEEN, TheWifi));
  }
}
