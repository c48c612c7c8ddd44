/** One planned action against the durable store: the idempotency ledger, the audit bracket and the execution between
    them, with storage failing at any point. A trace records what became durable and what was executed. */
module Ledger {
  import opened Options
  import opened Encoding
  import opened Config
  import opened Events
  import opened RuleRuntimes
  import opened Executor
  import opened Audit

  datatype Effect = Ledgered(key: LedgerKey, status: Status) | Audited(entry: Entry) | Executed(key: LedgerKey, action: ActionSpec)

  /** The tables, with the log they stand for and everything that has happened. */
  datatype Store = Store(tables: Tables, maxRecords: nat, log: seq<Row>, trace: seq<Effect>)

  /** JSON texts and digests, taken as given. */
  datatype Codec = Codec(
    event: Event -> string, action: ActionSpec -> string, outcome: Outcome -> string, digest: Digest, hasher: Hasher)

  function ActionHash(codec: Codec, action: ActionSpec): string {
    codec.digest(Utf8(codec.action(action)))
  }

  function KeyFor(codec: Codec, event: Event, plan: ActionPlan): LedgerKey {
    LedgerKey(event.id, plan.ruleId, ActionHash(codec, plan.action))
  }

  function StartedEntry(codec: Codec, key: LedgerKey, action: ActionSpec): Entry {
    Entry(Some(key.eventId), "action_started", Some(key.ruleId), codec.action(action))
  }

  function ConcludedEntry(codec: Codec, key: LedgerKey, outcome: Outcome): Entry {
    Entry(Some(key.eventId), if Successful(outcome) then "action_succeeded" else "action_failed", Some(key.ruleId),
          codec.outcome(outcome))
  }

  predicate Successful(outcome: Outcome) {
    outcome.Outcome? && outcome.success
  }

  function StatusOf(outcome: Outcome): Status {
    if Successful(outcome) then Succeeded else Failed
  }

  predicate Completed(st: Store, key: LedgerKey) {
    key in st.tables.ledger && st.tables.ledger[key] == Succeeded
  }

  // ---------------------------------------------------------------- store operations

  function Record(st: Store, key: LedgerKey, status: Status, fails: bool): (Store, bool) {
    if fails then (st, false)
    else (st.(tables := st.tables.(ledger := st.tables.ledger[key := status]), trace := st.trace + [Ledgered(key, status)]),
          true)
  }

  function LogEntry(st: Store, codec: Codec, entry: Entry, io: Io): (Store, bool) {
    if !AppendSucceeds(st.tables, codec.hasher, entry, io) then (st, false)
    else (st.(tables := AppendRow(st.tables, codec.hasher, st.maxRecords, entry, io),
              log := st.log + [NewRow(st.tables, codec.hasher, entry, io.timestamp)],
              trace := st.trace + [Audited(entry)]), true)
  }

  function Put(st: Store, key: string, value: string, fails: bool): (Store, bool) {
    if fails then (st, false)
    else (st.(tables := st.tables.(state := st.tables.state[key := value])), true)
  }

  function Ran(st: Store, key: LedgerKey, action: ActionSpec): Store {
    st.(trace := st.trace + [Executed(key, action)])
  }

  // ---------------------------------------------------------------- one planned action

  datatype PlanIo = PlanIo(
    lookupFails: bool, startFails: bool, announce: Io, answer: Answer, recordFails: bool, conclude: Io, effectFails: bool)

  /** How far processing of a plan got: a storage error stopped it, it had been done before, or it ran. */
  datatype Ending = Stopped | Skipped | Ended(outcome: Outcome)

  function Conclude(st: Store, codec: Codec, key: LedgerKey, outcome: Outcome, io: PlanIo): (Store, Ending) {
    var (recorded, ok) := Record(st, key, StatusOf(outcome), io.recordFails);
    if !ok then (recorded, Stopped)
    else
      var (concluded, done) := LogEntry(recorded, codec, ConcludedEntry(codec, key, outcome), io.conclude);
      (concluded, if done then Ended(outcome) else Stopped)
  }

  function RunPlan(st: Store, codec: Codec, context: ExecutionContext, event: Event, plan: ActionPlan, io: PlanIo): (Store, Ending) {
    var key := KeyFor(codec, event, plan);
    if io.lookupFails then (st, Stopped)
    else if Completed(st, key) then (st, Skipped)
    else
      var (started, ok) := Record(st, key, Started, io.startFails);
      if !ok then (started, Stopped)
      else
        var (announced, done) := LogEntry(started, codec, StartedEntry(codec, key, plan.action), io.announce);
        if !done then (announced, Stopped)
        else Conclude(Ran(announced, key, plan.action), codec, key, Execute(context, plan.action, io.answer), io)
  }

  // ---------------------------------------------------------------- safety

  /** What makes an entry of the trace legitimate where it stands. */
  predicate SafeAt(codec: Codec, trace: seq<Effect>, i: nat)
    requires i < |trace|
  {
    match trace[i]
    case Audited(_) => true
    case Ledgered(key, _) => Ledgered(key, Succeeded) !in trace[..i]
    case Executed(key, action) =>
      && Ledgered(key, Succeeded) !in trace[..i]
      && i >= 2 && trace[i - 2] == Ledgered(key, Started) && trace[i - 1] == Audited(StartedEntry(codec, key, action))
      && key.actionHash == ActionHash(codec, action)
  }

  predicate Safe(codec: Codec, trace: seq<Effect>) {
    forall i | 0 <= i < |trace| :: SafeAt(codec, trace, i)
  }

  /** The ledger remembers exactly the successes of the trace. */
  ghost predicate Tracks(ledger: map<LedgerKey, Status>, trace: seq<Effect>) {
    forall key :: (key in ledger && ledger[key] == Succeeded) <==> Ledgered(key, Succeeded) in trace
  }

  /** The audit entries of a trace, in order. */
  function AuditedOf(trace: seq<Effect>): seq<Entry> {
    if trace == [] then []
    else
      var last := trace[|trace| - 1];
      AuditedOf(trace[..|trace| - 1]) + (if last.Audited? then [last.entry] else [])
  }

  function EntriesOf(log: seq<Row>): seq<Entry> {
    seq(|log|, i requires 0 <= i < |log| => log[i].entry)
  }

  ghost predicate StoreInv(st: Store, codec: Codec) {
    && Represents(st.tables, codec.hasher, st.log) && Tracks(st.tables.ledger, st.trace) && Safe(codec, st.trace)
    && EntriesOf(st.log) == AuditedOf(st.trace)
  }

  lemma AuditedGrows(trace: seq<Effect>, effect: Effect)
    ensures AuditedOf(trace + [effect]) == AuditedOf(trace) + (if effect.Audited? then [effect.entry] else [])
  {
    assert (trace + [effect])[..|trace|] == trace;
  }

  lemma {:induction false} AuditedMember(trace: seq<Effect>, i: nat)
    requires i < |trace| && trace[i].Audited?
    ensures trace[i].entry in AuditedOf(trace)
  {
    if i < |trace| - 1 {
      AuditedMember(trace[..|trace| - 1], i);
    }
  }

  lemma SafeGrows(codec: Codec, trace: seq<Effect>, effect: Effect)
    requires Safe(codec, trace) && SafeAt(codec, trace + [effect], |trace|)
    ensures Safe(codec, trace + [effect])
  {
    forall i | 0 <= i < |trace| ensures SafeAt(codec, trace + [effect], i) {
      assert (trace + [effect])[..i] == trace[..i];
      assert SafeAt(codec, trace, i);
    }
  }

  lemma RecordKeepsInv(st: Store, codec: Codec, key: LedgerKey, status: Status, fails: bool)
    requires StoreInv(st, codec) && Ledgered(key, Succeeded) !in st.trace
    ensures StoreInv(Record(st, key, status, fails).0, codec)
  {
    if !fails {
      var effect := Ledgered(key, status);
      assert (st.trace + [effect])[..|st.trace|] == st.trace;
      SafeGrows(codec, st.trace, effect);
      AuditedGrows(st.trace, effect);
      TracksGrows(st.tables.ledger, st.trace, key, status);
      LedgerApart(st.tables, codec.hasher, st.log, st.tables.ledger[key := status]);
    }
  }

  lemma TracksGrows(ledger: map<LedgerKey, Status>, trace: seq<Effect>, key: LedgerKey, status: Status)
    requires Tracks(ledger, trace) && Ledgered(key, Succeeded) !in trace
    ensures Tracks(ledger[key := status], trace + [Ledgered(key, status)])
  {
  }

  lemma AppendKeepsInv(st: Store, codec: Codec, entry: Entry, io: Io)
    requires StoreInv(st, codec)
    ensures StoreInv(LogEntry(st, codec, entry, io).0, codec)
  {
    if AppendSucceeds(st.tables, codec.hasher, entry, io) {
      AppendRefines(st.tables, codec.hasher, st.log, st.maxRecords, entry, io);
      SafeGrows(codec, st.trace, Audited(entry));
      AuditedGrows(st.trace, Audited(entry));
      PruneTouchesRowsAndAnchor(Grown(st.tables, NewRow(st.tables, codec.hasher, entry, io.timestamp)), st.maxRecords);
    }
  }

  lemma PutKeepsInv(st: Store, codec: Codec, key: string, value: string, fails: bool)
    requires StoreInv(st, codec) && key != ANCHOR_KEY
    ensures StoreInv(Put(st, key, value, fails).0, codec)
  {
    StateApart(st.tables, codec.hasher, st.log, key, value);
  }

  lemma ConcludeKeepsInv(st: Store, codec: Codec, key: LedgerKey, outcome: Outcome, io: PlanIo)
    requires StoreInv(st, codec) && Ledgered(key, Succeeded) !in st.trace
    ensures StoreInv(Conclude(st, codec, key, outcome, io).0, codec)
  {
    RecordKeepsInv(st, codec, key, StatusOf(outcome), io.recordFails);
    AppendKeepsInv(Record(st, key, StatusOf(outcome), io.recordFails).0, codec, ConcludedEntry(codec, key, outcome), io.conclude);
  }

  /** Whatever fails on the way, processing a plan keeps the ledger and the trace safe. */
  lemma RunPlanKeepsInv(st: Store, codec: Codec, context: ExecutionContext, event: Event, plan: ActionPlan, io: PlanIo)
    requires StoreInv(st, codec)
    ensures StoreInv(RunPlan(st, codec, context, event, plan, io).0, codec)
  {
    var key := KeyFor(codec, event, plan);
    if !io.lookupFails && !Completed(st, key) {
      var (started, ok) := Record(st, key, Started, io.startFails);
      RecordKeepsInv(st, codec, key, Started, io.startFails);
      if ok {
        var entry := StartedEntry(codec, key, plan.action);
        var (announced, done) := LogEntry(started, codec, entry, io.announce);
        AppendKeepsInv(started, codec, entry, io.announce);
        if done {
          RanKeepsInv(announced, codec, key, plan.action, st.trace);
          ConcludeKeepsInv(Ran(announced, key, plan.action), codec, key, Execute(context, plan.action, io.answer), io);
        }
      }
    }
  }

  lemma RanKeepsInv(st: Store, codec: Codec, key: LedgerKey, action: ActionSpec, earlier: seq<Effect>)
    requires StoreInv(st, codec) && key.actionHash == ActionHash(codec, action)
    requires st.trace == earlier + [Ledgered(key, Started)] + [Audited(StartedEntry(codec, key, action))]
    requires Ledgered(key, Succeeded) !in earlier
    ensures StoreInv(Ran(st, key, action), codec) && Ledgered(key, Succeeded) !in Ran(st, key, action).trace
  {
    assert (st.trace + [Executed(key, action)])[..|st.trace|] == st.trace;
    SafeGrows(codec, st.trace, Executed(key, action));
    AuditedGrows(st.trace, Executed(key, action));
  }

  /** Everything a plan that runs to its end leaves in the trace, in order. */
  function FullTrace(codec: Codec, key: LedgerKey, action: ActionSpec, outcome: Outcome): seq<Effect> {
    [Ledgered(key, Started), Audited(StartedEntry(codec, key, action)), Executed(key, action),
     Ledgered(key, StatusOf(outcome)), Audited(ConcludedEntry(codec, key, outcome))]
  }

  /** What processing a plan does, by its ending: all of the full trace and a ledger that tells the outcome; nothing, if
      it had succeeded before; or a proper beginning of the trace, cut where storage failed. */
  lemma PlanTraceExact(st: Store, codec: Codec, context: ExecutionContext, event: Event, plan: ActionPlan, io: PlanIo)
    ensures var key, outcome := KeyFor(codec, event, plan), Execute(context, plan.action, io.answer);
            var full := FullTrace(codec, key, plan.action, outcome);
            var (next, ending) := RunPlan(st, codec, context, event, plan, io);
            match ending
            case Ended(o) => && o == outcome && next.trace == st.trace + full
                             && key in next.tables.ledger && next.tables.ledger[key] == StatusOf(outcome)
            case Skipped => Completed(st, key) && next == st
            case Stopped => exists k: nat | k < |full| :: next.trace == st.trace + full[..k]
  {
    var key, outcome := KeyFor(codec, event, plan), Execute(context, plan.action, io.answer);
    var full := FullTrace(codec, key, plan.action, outcome);
    var (next, ending) := RunPlan(st, codec, context, event, plan, io);
    if io.lookupFails {
      assert next.trace == st.trace + full[..0];
    } else if !Completed(st, key) {
      var (started, ok) := Record(st, key, Started, io.startFails);
      if !ok {
        assert next.trace == st.trace + full[..0];
      } else {
        var (announced, done) := LogEntry(started, codec, StartedEntry(codec, key, plan.action), io.announce);
        if !done {
          assert next.trace == st.trace + full[..1];
        } else {
          ConclusionTrace(Ran(announced, key, plan.action), codec, key, outcome, io, st.trace, full);
        }
      }
    }
  }

  lemma ConclusionTrace(st: Store, codec: Codec, key: LedgerKey, outcome: Outcome, io: PlanIo, earlier: seq<Effect>, full: seq<Effect>)
    requires |full| == 5 && st.trace == earlier + full[..3]
    requires full[3] == Ledgered(key, StatusOf(outcome)) && full[4] == Audited(ConcludedEntry(codec, key, outcome))
    ensures var (next, ending) := Conclude(st, codec, key, outcome, io);
            if ending == Ended(outcome)
            then next.trace == earlier + full && key in next.tables.ledger && next.tables.ledger[key] == StatusOf(outcome)
            else ending == Stopped && (next.trace == earlier + full[..3] || next.trace == earlier + full[..4])
  {
    var (recorded, ok) := Record(st, key, StatusOf(outcome), io.recordFails);
    if ok {
      assert recorded.trace == earlier + full[..4];
      assert recorded.trace + [full[4]] == earlier + full;
      PruneTouchesRowsAndAnchor(Grown(recorded.tables, NewRow(recorded.tables, codec.hasher, ConcludedEntry(codec, key, outcome),
                                                              io.conclude.timestamp)), recorded.maxRecords);
    }
  }

  /** An action that has succeeded is skipped when the same event is processed again. */
  lemma RerunSkips(st: Store, codec: Codec, context: ExecutionContext, event: Event, plan: ActionPlan, io: PlanIo,
                   again: ExecutionContext, retry: PlanIo)
    requires var ending := RunPlan(st, codec, context, event, plan, io).1; ending.Ended? && Successful(ending.outcome)
    requires !retry.lookupFails
    ensures var next := RunPlan(st, codec, context, event, plan, io).0;
            RunPlan(next, codec, again, event, plan, retry) == (next, Skipped)
  {
    PlanTraceExact(st, codec, context, event, plan, io);
  }

  /** What a plan that ran to its end has left, written out: the ledger says "succeeded" exactly for an outcome that
      reports success, and "failed" for every other outcome and for an error; the concluding record says the same. */
  lemma ConclusionExact(st: Store, codec: Codec, context: ExecutionContext, event: Event, plan: ActionPlan, io: PlanIo)
    requires RunPlan(st, codec, context, event, plan, io).1.Ended?
    ensures var (next, ending) := RunPlan(st, codec, context, event, plan, io);
            var key := LedgerKey(event.id, plan.ruleId, codec.digest(Utf8(codec.action(plan.action))));
            var good := ending.outcome.Outcome? && ending.outcome.success;
            && key in next.tables.ledger && next.tables.ledger[key] == (if good then Succeeded else Failed)
            && next.trace == st.trace +
                 [Ledgered(key, Started),
                  Audited(Entry(Some(event.id), "action_started", Some(plan.ruleId), codec.action(plan.action))),
                  Executed(key, plan.action),
                  Ledgered(key, if good then Succeeded else Failed),
                  Audited(Entry(Some(event.id), if good then "action_succeeded" else "action_failed", Some(plan.ruleId),
                                codec.outcome(ending.outcome)))]
  {
    PlanTraceExact(st, codec, context, event, plan, io);
  }

  /** Whether an action is executed, when nothing fails before it: exactly when the ledger does not hold its success. */
  lemma ExecutesUnlessDone(st: Store, codec: Codec, context: ExecutionContext, event: Event, plan: ActionPlan, io: PlanIo)
    requires !io.lookupFails && !io.startFails
    requires AppendSucceeds(st.tables, codec.hasher,
                            Entry(Some(event.id), "action_started", Some(plan.ruleId), codec.action(plan.action)), io.announce)
    ensures var key := LedgerKey(event.id, plan.ruleId, codec.digest(Utf8(codec.action(plan.action))));
            var next := RunPlan(st, codec, context, event, plan, io).0;
            if key in st.tables.ledger && st.tables.ledger[key] == Succeeded then next == st
            else |next.trace| >= |st.trace| + 3 && next.trace[..|st.trace|] == st.trace &&
                 next.trace[|st.trace| + 2] == Executed(key, plan.action)
  {
    PlanTraceExact(st, codec, context, event, plan, io);
    var key := KeyFor(codec, event, plan);
    if !Completed(st, key) {
      var started := Record(st, key, Started, false).0;
      var announced := LogEntry(started, codec, StartedEntry(codec, key, plan.action), io.announce).0;
      AnnouncedTrace(st, started, announced, key, plan.action, codec, io.announce);
      ConcludeKeepsTrace(Ran(announced, key, plan.action), codec, key, Execute(context, plan.action, io.answer), io);
    }
  }

  lemma AnnouncedTrace(st: Store, started: Store, announced: Store, key: LedgerKey, action: ActionSpec, codec: Codec, io: Io)
    requires started == Record(st, key, Started, false).0
    requires AppendSucceeds(st.tables, codec.hasher, StartedEntry(codec, key, action), io)
    requires announced == LogEntry(started, codec, StartedEntry(codec, key, action), io).0
    ensures LogEntry(started, codec, StartedEntry(codec, key, action), io).1
    ensures Ran(announced, key, action).trace ==
            st.trace + [Ledgered(key, Started), Audited(StartedEntry(codec, key, action)), Executed(key, action)]
  {
    assert NewRow(started.tables, codec.hasher, StartedEntry(codec, key, action), io.timestamp) ==
           NewRow(st.tables, codec.hasher, StartedEntry(codec, key, action), io.timestamp);
  }

  lemma ConcludeKeepsTrace(st: Store, codec: Codec, key: LedgerKey, outcome: Outcome, io: PlanIo)
    ensures st.trace <= Conclude(st, codec, key, outcome, io).0.trace
  {
  }

  /** An action that ended without success is executed again when the same event is processed again. */
  lemma FailureIsRetried(st: Store, codec: Codec, context: ExecutionContext, event: Event, plan: ActionPlan, io: PlanIo,
                         again: ExecutionContext, retry: PlanIo)
    requires var ending := RunPlan(st, codec, context, event, plan, io).1;
             ending.Ended? && !(ending.outcome.Outcome? && ending.outcome.success)
    requires !retry.lookupFails && !retry.startFails
    requires AppendSucceeds(RunPlan(st, codec, context, event, plan, io).0.tables, codec.hasher,
                            Entry(Some(event.id), "action_started", Some(plan.ruleId), codec.action(plan.action)), retry.announce)
    ensures var next := RunPlan(st, codec, context, event, plan, io).0;
            var key := LedgerKey(event.id, plan.ruleId, codec.digest(Utf8(codec.action(plan.action))));
            var trace := RunPlan(next, codec, again, event, plan, retry).0.trace;
            |trace| >= |next.trace| + 3 && trace[..|next.trace|] == next.trace && trace[|next.trace| + 2] == Executed(key, plan.action)
  {
    ConclusionExact(st, codec, context, event, plan, io);
    ExecutesUnlessDone(RunPlan(st, codec, context, event, plan, io).0, codec, again, event, plan, retry);
  }

  /** Read off a safe trace: once an action has succeeded, it is neither executed nor recorded again. */
  lemma SuccessIsTerminal(codec: Codec, trace: seq<Effect>, key: LedgerKey, i: nat, j: nat)
    requires Safe(codec, trace) && i < j < |trace| && trace[i] == Ledgered(key, Succeeded)
    ensures !(trace[j].Executed? && trace[j].key == key) && !(trace[j].Ledgered? && trace[j].key == key)
  {
    assert SafeAt(codec, trace, j);
    assert trace[i] in trace[..j];
  }

  /** Read off a safe trace: every execution comes right after its ledger entry and its audit announcement. */
  lemma ExecutionIsBracketed(codec: Codec, trace: seq<Effect>, j: nat)
    requires Safe(codec, trace) && j < |trace| && trace[j].Executed?
    ensures var e := trace[j];
            && j >= 2 && trace[j - 2] == Ledgered(e.key, Started)
            && trace[j - 1] == Audited(StartedEntry(codec, e.key, e.action))
            && e.key.actionHash == ActionHash(codec, e.action)
  {
    assert SafeAt(codec, trace, j);
  }

  /** The entry at `j` is an execution that was recorded as started and announced right before, under the hash of its own
      action, with the announcement in the log. */
  ghost predicate Announced(st: Store, codec: Codec, j: nat)
    requires j < |st.trace| && st.trace[j].Executed?
  {
    var e := st.trace[j];
    && j >= 2 && st.trace[j - 2] == Ledgered(e.key, Started)
    && st.trace[j - 1] == Audited(StartedEntry(codec, e.key, e.action))
    && e.key.actionHash == ActionHash(codec, e.action)
    && StartedEntry(codec, e.key, e.action) in EntriesOf(st.log)
  }

  lemma ExecutionIsAnnounced(st: Store, codec: Codec, j: nat)
    requires StoreInv(st, codec) && j < |st.trace| && st.trace[j].Executed?
    ensures Announced(st, codec, j)
  {
    ExecutionIsBracketed(codec, st.trace, j);
    AuditedMember(st.trace, j - 1);
  }
}
