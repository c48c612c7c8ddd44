/** The audit store: a hash chain with retention, beside a key/value state and the action ledger. */
module Audit {
  import opened Options
  import opened Encoding

  /** The hash before the first record: sixty-four zero digits. */
  const GENESIS := Zeros(64)

  function Zeros(n: nat): string {
    if n == 0 then "" else Zeros(n - 1) + "0"
  }

  const ANCHOR_KEY := "audit_anchor"

  datatype Entry = Entry(eventId: Option<string>, kind: string, ruleId: Option<string>, payload: string)

  datatype Row = Row(id: nat, timestamp: string, entry: Entry, previousHash: string, hash: string)

  datatype LedgerKey = LedgerKey(eventId: string, ruleId: string, actionHash: string)

  datatype Status = Started | Succeeded | Failed

  /** The three tables. Rows are in ascending identifier order, the order of every query. */
  datatype Tables = Tables(rows: seq<Row>, nextId: nat, state: map<string, string>, ledger: map<LedgerKey, Status>)

  const EMPTY := Tables([], 1, map[], map[])

  function TextOr(value: Option<string>): string {
    if value.Some? then value.value else ""
  }

  /** The six hashed texts; an absent text and an empty one are the same here. */
  function HashedTexts(previous: string, timestamp: string, entry: Entry): seq<string> {
    [previous, timestamp, TextOr(entry.eventId), entry.kind, TextOr(entry.ruleId), entry.payload]
  }

  function HashedFields(previous: string, timestamp: string, entry: Entry): seq<seq<byte>> {
    var texts := HashedTexts(previous, timestamp, entry);
    seq(6, i requires 0 <= i < 6 => Utf8(texts[i]))
  }

  function RecordHash(digest: Digest, previous: string, timestamp: string, entry: Entry): string {
    digest(EncodeFields(HashedFields(previous, timestamp, entry)))
  }

  /** What chains are made with: the hash before the first record, and the hash of a record given the one before it.
      Chains are studied for any such choice; the store uses `HasherOf(digest, GENESIS)`. */
  datatype Hasher = Hasher(genesis: string, hash: (string, string, Entry) -> string)

  function HasherOf(digest: Digest, genesis: string): Hasher {
    Hasher(genesis, (previous, timestamp, entry) => RecordHash(digest, previous, timestamp, entry))
  }

  /** What is hashed for a record, written out: the previous hash, the time, the event, the kind, the rule and the payload. */
  lemma RecordBytesExact(digest: Digest, previous: string, timestamp: string, entry: Entry)
    ensures RecordHash(digest, previous, timestamp, entry) ==
            digest(EncodeFields([Utf8(previous), Utf8(timestamp), Utf8(if entry.eventId.Some? then entry.eventId.value else ""),
                                 Utf8(entry.kind), Utf8(if entry.ruleId.Some? then entry.ruleId.value else ""),
                                 Utf8(entry.payload)]))
  {
    assert HashedFields(previous, timestamp, entry) ==
           [Utf8(previous), Utf8(timestamp), Utf8(TextOr(entry.eventId)), Utf8(entry.kind), Utf8(TextOr(entry.ruleId)),
            Utf8(entry.payload)];
  }

  lemma {:induction false} ZerosAreZeros(n: nat)
    ensures |Zeros(n)| == n && forall i | 0 <= i < n :: Zeros(n)[i] == '0'
  {
    if n > 0 {
      ZerosAreZeros(n - 1);
    }
  }

  method ComputeHash(digest: Digest, ghost genesis: string, previous: string, timestamp: string, entry: Entry) returns (hash: string)
    ensures hash == HasherOf(digest, genesis).hash(previous, timestamp, entry)
  {
    var fields := HashedFields(previous, timestamp, entry);
    var fed: seq<byte> := [];
    for i := 0 to |fields|
      invariant fed + EncodeFields(fields[i..]) == EncodeFields(fields)
    {
      assert fields[i..][1..] == fields[i + 1..];
      fed := fed + LittleEndian(|fields[i]|, 8);
      fed := fed + fields[i];
    }
    assert fed + [] == fed;
    hash := digest(fed);
  }

  // ---------------------------------------------------------------- chains

  function HashBefore(anchor: string, rows: seq<Row>, i: nat): string
    requires i <= |rows|
  {
    if i == 0 then anchor else rows[i - 1].hash
  }

  predicate LinkedAt(hasher: Hasher, anchor: string, rows: seq<Row>, i: nat)
    requires i < |rows|
  {
    && rows[i].previousHash == HashBefore(anchor, rows, i)
    && rows[i].hash == hasher.hash(rows[i].previousHash, rows[i].timestamp, rows[i].entry)
  }

  predicate Chain(hasher: Hasher, anchor: string, rows: seq<Row>) {
    forall i | 0 <= i < |rows| :: LinkedAt(hasher, anchor, rows, i)
  }

  predicate Ascending(rows: seq<Row>, nextId: nat) {
    && (forall i, j | 0 <= i < j < |rows| :: rows[i].id < rows[j].id)
    && (forall i | 0 <= i < |rows| :: rows[i].id < nextId)
  }

  // ---------------------------------------------------------------- operations on the tables

  function Anchor(hasher: Hasher, t: Tables): string {
    if ANCHOR_KEY in t.state then t.state[ANCHOR_KEY] else hasher.genesis
  }

  function LastHash(hasher: Hasher, t: Tables): string {
    HashBefore(Anchor(hasher, t), t.rows, |t.rows|)
  }

  function NewRow(t: Tables, hasher: Hasher, entry: Entry, timestamp: string): Row {
    Row(t.nextId, timestamp, entry, LastHash(hasher, t), hasher.hash(LastHash(hasher, t), timestamp, entry))
  }

  function Excess(t: Tables, maxRecords: nat): nat {
    if maxRecords == 0 || |t.rows| <= maxRecords then 0 else |t.rows| - maxRecords
  }

  /** Retention: everything up to and including the cutoff row goes, and its hash becomes the anchor. */
  function Prune(t: Tables, maxRecords: nat): Tables {
    var excess := Excess(t, maxRecords);
    if excess == 0 then t
    else
      var cutoff := t.rows[excess - 1];
      t.(rows := Filter((row: Row) => row.id > cutoff.id, t.rows), state := t.state[ANCHOR_KEY := cutoff.hash])
  }

  /** One transaction. It fails as a whole when storage fails or the new digest is already in the table. */
  datatype Io = Io(fails: bool, timestamp: string)

  predicate AppendSucceeds(t: Tables, hasher: Hasher, entry: Entry, io: Io) {
    !io.fails && forall row | row in t.rows :: row.hash != NewRow(t, hasher, entry, io.timestamp).hash
  }

  function Grown(t: Tables, row: Row): Tables {
    t.(rows := t.rows + [row], nextId := t.nextId + 1)
  }

  function AppendRow(t: Tables, hasher: Hasher, maxRecords: nat, entry: Entry, io: Io): Tables {
    if !AppendSucceeds(t, hasher, entry, io) then t
    else Prune(Grown(t, NewRow(t, hasher, entry, io.timestamp)), maxRecords)
  }

  datatype VerifyFault = ChainBreak(id: nat) | DigestMismatch(id: nat)

  // ---------------------------------------------------------------- the mutable store

  class AuditStore {
    const digest: Digest
    const genesis: string
    var maxRecords: nat
    var rows: seq<Row>
    var nextId: nat
    var state: map<string, string>
    var ledger: map<LedgerKey, Status>

    function View(): Tables
      reads this
    {
      Tables(rows, nextId, state, ledger)
    }

    /** Opens a database file holding `tables`, with the retention limit then configured. */
    constructor (digest: Digest, maxRecords: nat, tables: Tables)
      ensures View() == tables && this.digest == digest && this.maxRecords == maxRecords && genesis == GENESIS
    {
      this.digest, genesis, this.maxRecords := digest, GENESIS, maxRecords;
      rows, nextId, state, ledger := tables.rows, tables.nextId, tables.state, tables.ledger;
    }

    method PruneRows()
      modifies this`rows, this`state
      ensures View() == Prune(old(View()), maxRecords)
    {
      if maxRecords == 0 {
        return;
      }
      var excess := if |rows| > maxRecords then |rows| - maxRecords else 0;
      if excess == 0 {
        return;
      }
      var cutoff, anchor := rows[excess - 1].id, rows[excess - 1].hash;
      rows := Filter((row: Row) => row.id > cutoff, rows);
      state := state[ANCHOR_KEY := anchor];
    }

    method Insert(entry: Entry, io: Io) returns (result: Option<Row>)
      modifies this`rows, this`nextId
      ensures result == if AppendSucceeds(old(View()), HasherOf(digest, genesis), entry, io)
                        then Some(NewRow(old(View()), HasherOf(digest, genesis), entry, io.timestamp)) else None
      ensures View() == if result.Some? then Grown(old(View()), result.value) else old(View())
    {
      var anchor := if ANCHOR_KEY in state then state[ANCHOR_KEY] else genesis;
      var previous := if rows == [] then anchor else rows[|rows| - 1].hash;
      var hash := ComputeHash(digest, genesis, previous, io.timestamp, entry);
      if io.fails || exists row | row in rows :: row.hash == hash {
        return None;
      }
      var row := Row(nextId, io.timestamp, entry, previous, hash);
      rows := rows + [row];
      nextId := nextId + 1;
      result := Some(row);
    }

    /** Insertion and retention, in one transaction. */
    method Append(entry: Entry, io: Io) returns (result: Option<Row>)
      modifies this`rows, this`nextId, this`state
      ensures View() == AppendRow(old(View()), HasherOf(digest, genesis), maxRecords, entry, io)
      ensures result == if AppendSucceeds(old(View()), HasherOf(digest, genesis), entry, io)
                        then Some(NewRow(old(View()), HasherOf(digest, genesis), entry, io.timestamp)) else None
    {
      result := Insert(entry, io);
      if result.Some? {
        PruneRows();
      }
    }

    /** Succeeds with the row count exactly on an unbroken chain, and otherwise names the first bad row. */
    method Verify() returns (result: Result<nat, VerifyFault>)
      ensures result.Ok? <==> Chain(HasherOf(digest, genesis), Anchor(HasherOf(digest, genesis), View()), rows)
      ensures result.Ok? ==> result.value == |rows|
      ensures result.Err? ==> exists k | 0 <= k < |rows| ::
                && (forall i | 0 <= i < k :: LinkedAt(HasherOf(digest, genesis), Anchor(HasherOf(digest, genesis), View()), rows, i))
                && !LinkedAt(HasherOf(digest, genesis), Anchor(HasherOf(digest, genesis), View()), rows, k)
                && result.error == if rows[k].previousHash != HashBefore(Anchor(HasherOf(digest, genesis), View()), rows, k)
                                   then ChainBreak(rows[k].id) else DigestMismatch(rows[k].id)
    {
      ghost var anchor := Anchor(HasherOf(digest, genesis), View());
      var previous := if ANCHOR_KEY in state then state[ANCHOR_KEY] else genesis;
      var verified := 0;
      for k := 0 to |rows|
        invariant verified == k && previous == HashBefore(anchor, rows, k)
        invariant forall i | 0 <= i < k :: LinkedAt(HasherOf(digest, genesis), anchor, rows, i)
      {
        var row := rows[k];
        assert LinkedAt(HasherOf(digest, genesis), anchor, rows, k) <==>
               row.previousHash == previous && row.hash == HasherOf(digest, genesis).hash(previous, row.timestamp, row.entry);
        if row.previousHash != previous {
          return Err(ChainBreak(row.id));
        }
        var calculated := ComputeHash(digest, genesis, previous, row.timestamp, row.entry);
        if calculated != row.hash {
          return Err(DigestMismatch(row.id));
        }
        previous := row.hash;
        verified := verified + 1;
      }
      result := Ok(verified);
    }

    method SetState(key: string, value: string, fails: bool) returns (ok: bool)
      modifies this`state
      ensures ok == !fails && View() == if ok then old(View()).(state := old(state)[key := value]) else old(View())
    {
      if !fails {
        state := state[key := value];
      }
      ok := !fails;
    }

    method ActionCompleted(key: LedgerKey) returns (completed: bool)
      ensures completed <==> key in ledger && ledger[key] == Succeeded
    {
      completed := key in ledger && ledger[key] == Succeeded;
    }

    method RecordAction(key: LedgerKey, status: Status, fails: bool) returns (ok: bool)
      modifies this`ledger
      ensures ok == !fails && View() == if ok then old(View()).(ledger := old(ledger)[key := status]) else old(View())
    {
      if !fails {
        ledger := ledger[key := status];
      }
      ok := !fails;
    }
  }

  // ---------------------------------------------------------------- refinement of an unbounded log

  /** The tables hold the end of `log`, anchored on the hash just before it; nothing pruned means the genesis hash. */
  ghost predicate Represents(t: Tables, hasher: Hasher, log: seq<Row>) {
    var pruned := |log| - |t.rows|;
    && Chain(hasher, hasher.genesis, log) && Ascending(log, t.nextId)
    && pruned >= 0 && t.rows == log[pruned..]
    && Anchor(hasher, t) == HashBefore(hasher.genesis, log, pruned)
    && (ANCHOR_KEY in t.state <==> pruned > 0)
  }

  lemma {:induction false} FilterById(rows: seq<Row>, nextId: nat, k: nat)
    requires Ascending(rows, nextId) && 0 < k <= |rows|
    ensures Filter((row: Row) => row.id > rows[k - 1].id, rows) == rows[k..]
  {
    FilterAscending(rows, nextId, rows[k - 1].id, k);
  }

  lemma {:induction false} FilterAscending(rows: seq<Row>, nextId: nat, cutoff: nat, k: nat)
    requires Ascending(rows, nextId) && k <= |rows|
    requires forall i | 0 <= i < |rows| :: rows[i].id > cutoff <==> i >= k
    ensures Filter((row: Row) => row.id > cutoff, rows) == rows[k..]
  {
    if rows != [] {
      var front := rows[..|rows| - 1];
      if k < |rows| {
        FilterAscending(front, nextId, cutoff, k);
        assert rows[k..] == front[k..] + [rows[|rows| - 1]];
      } else {
        FilterAscending(front, nextId, cutoff, k - 1);
      }
    }
  }

  /** The tables without their first `k` rows. */
  function Dropped(t: Tables, k: nat): Tables
    requires 0 < k <= |t.rows|
  {
    t.(rows := t.rows[k..], state := t.state[ANCHOR_KEY := t.rows[k - 1].hash])
  }

  /** How many of `count` rows a limit lets stay: the last `limit` of them, or all where no limit is set. */
  function Retained(count: nat, limit: nat): nat {
    if limit > 0 && limit < count then limit else count
  }

  /** Pruning drops exactly the excess rows. */
  lemma PruneDropsExcess(t: Tables, maxRecords: nat)
    requires Ascending(t.rows, t.nextId)
    ensures Prune(t, maxRecords) == if Excess(t, maxRecords) == 0 then t else Dropped(t, Excess(t, maxRecords))
    ensures var kept := if maxRecords == 0 || |t.rows| <= maxRecords then |t.rows| else maxRecords;
            Prune(t, maxRecords).rows == t.rows[|t.rows| - kept..]
  {
    if Excess(t, maxRecords) > 0 {
      FilterById(t.rows, t.nextId, Excess(t, maxRecords));
    }
  }

  lemma DropRefines(t: Tables, hasher: Hasher, log: seq<Row>, k: nat)
    requires Represents(t, hasher, log) && 0 < k <= |t.rows|
    ensures Represents(Dropped(t, k), hasher, log)
  {
    var pruned := |log| - |t.rows|;
    assert t.rows[k..] == log[pruned + k..];
    assert t.rows[k - 1] == log[pruned + k - 1];
  }

  lemma SuffixAscending(t: Tables, hasher: Hasher, log: seq<Row>)
    requires Represents(t, hasher, log)
    ensures Ascending(t.rows, t.nextId)
  {
  }

  lemma PruneRefines(t: Tables, hasher: Hasher, log: seq<Row>, maxRecords: nat)
    requires Represents(t, hasher, log)
    ensures Represents(Prune(t, maxRecords), hasher, log)
    ensures |Prune(t, maxRecords).rows| == Retained(|t.rows|, maxRecords)
  {
    SuffixAscending(t, hasher, log);
    PruneDropsExcess(t, maxRecords);
    if Excess(t, maxRecords) > 0 {
      DropRefines(t, hasher, log, Excess(t, maxRecords));
    }
  }

  lemma LastHashOfLog(t: Tables, hasher: Hasher, log: seq<Row>)
    requires Represents(t, hasher, log)
    ensures LastHash(hasher, t) == HashBefore(hasher.genesis, log, |log|)
  {
    if t.rows != [] {
      assert t.rows[|t.rows| - 1] == log[|log| - 1];
    }
  }

  lemma GrowRefines(t: Tables, hasher: Hasher, log: seq<Row>, entry: Entry, timestamp: string)
    requires Represents(t, hasher, log)
    ensures Represents(Grown(t, NewRow(t, hasher, entry, timestamp)), hasher, log + [NewRow(t, hasher, entry, timestamp)])
  {
    var row := NewRow(t, hasher, entry, timestamp);
    LastHashOfLog(t, hasher, log);
    ChainGrows(hasher, log, row);
    AscendingGrows(log, t.nextId, row);
    assert t.rows + [row] == (log + [row])[|log| - |t.rows|..];
  }

  lemma AscendingGrows(rows: seq<Row>, nextId: nat, row: Row)
    requires Ascending(rows, nextId) && row.id == nextId
    ensures Ascending(rows + [row], nextId + 1)
  {
  }

  lemma ChainGrows(hasher: Hasher, log: seq<Row>, row: Row)
    requires Chain(hasher, hasher.genesis, log) && row.previousHash == HashBefore(hasher.genesis, log, |log|)
    requires row.hash == hasher.hash(row.previousHash, row.timestamp, row.entry)
    ensures Chain(hasher, hasher.genesis, log + [row])
  {
    forall i | 0 <= i < |log + [row]| ensures LinkedAt(hasher, hasher.genesis, log + [row], i) {
      assert i < |log| ==> LinkedAt(hasher, hasher.genesis, log, i);
    }
  }

  /** Appending to the store is appending to the log. */
  lemma AppendRefines(t: Tables, hasher: Hasher, log: seq<Row>, maxRecords: nat, entry: Entry, io: Io)
    requires Represents(t, hasher, log)
    ensures var next := AppendRow(t, hasher, maxRecords, entry, io);
            if AppendSucceeds(t, hasher, entry, io)
            then && Represents(next, hasher, log + [NewRow(t, hasher, entry, io.timestamp)])
                 && |next.rows| == Retained(|t.rows| + 1, maxRecords)
            else next == t
  {
    if AppendSucceeds(t, hasher, entry, io) {
      var row := NewRow(t, hasher, entry, io.timestamp);
      GrowRefines(t, hasher, log, entry, io.timestamp);
      PruneRefines(Grown(t, row), hasher, log + [row], maxRecords);
    }
  }

  /** The retained rows form a chain from the stored anchor, so verification succeeds on every one of them. */
  lemma RepresentsVerifies(t: Tables, hasher: Hasher, log: seq<Row>)
    requires Represents(t, hasher, log)
    ensures Chain(hasher, Anchor(hasher, t), t.rows)
  {
    var pruned := |log| - |t.rows|;
    forall i | 0 <= i < |t.rows| ensures LinkedAt(hasher, Anchor(hasher, t), t.rows, i) {
      assert LinkedAt(hasher, hasher.genesis, log, pruned + i);
    }
  }

  /** The limit in force belongs to the opening during which an entry is appended. */
  datatype StoreOp =
    | Append(entry: Entry, io: Io, maxRecords: nat)
    | SetState(key: string, value: string)
    | RecordAction(ledgerKey: LedgerKey, status: Status)

  function Apply(t: Tables, hasher: Hasher, op: StoreOp): Tables {
    match op
    case Append(entry, io, maxRecords) => AppendRow(t, hasher, maxRecords, entry, io)
    case SetState(key, value) => t.(state := t.state[key := value])
    case RecordAction(key, status) => t.(ledger := t.ledger[key := status])
  }

  function TablesAfter(hasher: Hasher, ops: seq<StoreOp>): Tables {
    if ops == [] then EMPTY else Apply(TablesAfter(hasher, ops[..|ops| - 1]), hasher, ops[|ops| - 1])
  }

  /** The log nobody prunes: each accepted entry is chained to the one before it and numbered consecutively. */
  function LogWith(log: seq<Row>, hasher: Hasher, entry: Entry, timestamp: string): seq<Row> {
    var previous := HashBefore(hasher.genesis, log, |log|);
    log + [Row(|log| + 1, timestamp, entry, previous, hasher.hash(previous, timestamp, entry))]
  }

  predicate Accepted(t: Tables, hasher: Hasher, op: StoreOp) {
    op.Append? && AppendSucceeds(t, hasher, op.entry, op.io)
  }

  function LogAfter(hasher: Hasher, ops: seq<StoreOp>): seq<Row> {
    if ops == [] then []
    else
      var before, op := ops[..|ops| - 1], ops[|ops| - 1];
      if Accepted(TablesAfter(hasher, before), hasher, op)
      then LogWith(LogAfter(hasher, before), hasher, op.entry, op.io.timestamp) else LogAfter(hasher, before)
  }

  lemma PruneTouchesRowsAndAnchor(t: Tables, maxRecords: nat)
    ensures var p := Prune(t, maxRecords); p.nextId == t.nextId && p.ledger == t.ledger
  {
  }

  lemma AppendOpRefines(t: Tables, hasher: Hasher, log: seq<Row>, maxRecords: nat, entry: Entry, io: Io)
    requires Represents(t, hasher, log) && t.nextId == |log| + 1 && AppendSucceeds(t, hasher, entry, io)
    ensures var next, longer := AppendRow(t, hasher, maxRecords, entry, io), LogWith(log, hasher, entry, io.timestamp);
            && Represents(next, hasher, longer) && next.nextId == |longer| + 1
            && |next.rows| == Retained(|t.rows| + 1, maxRecords)
  {
    LastHashOfLog(t, hasher, log);
    AppendRefines(t, hasher, log, maxRecords, entry, io);
    PruneTouchesRowsAndAnchor(Grown(t, NewRow(t, hasher, entry, io.timestamp)), maxRecords);
  }

  lemma StateApart(t: Tables, hasher: Hasher, log: seq<Row>, key: string, value: string)
    requires Represents(t, hasher, log) && key != ANCHOR_KEY
    ensures Represents(t.(state := t.state[key := value]), hasher, log)
  {
    assert Anchor(hasher, t.(state := t.state[key := value])) == Anchor(hasher, t);
  }

  lemma LedgerApart(t: Tables, hasher: Hasher, log: seq<Row>, ledger: map<LedgerKey, Status>)
    requires Represents(t, hasher, log)
    ensures Represents(t.(ledger := ledger), hasher, log)
  {
  }

  lemma OpRefines(t: Tables, hasher: Hasher, log: seq<Row>, op: StoreOp)
    requires Represents(t, hasher, log) && t.nextId == |log| + 1 && (op.SetState? ==> op.key != ANCHOR_KEY)
    ensures var next := Apply(t, hasher, op);
            var longer := if Accepted(t, hasher, op) then LogWith(log, hasher, op.entry, op.io.timestamp) else log;
            && Represents(next, hasher, longer) && next.nextId == |longer| + 1
            && (Accepted(t, hasher, op) ==> |next.rows| == Retained(|t.rows| + 1, op.maxRecords))
  {
    match op
    case Append(entry, io, maxRecords) =>
      if Accepted(t, hasher, op) {
        AppendOpRefines(t, hasher, log, maxRecords, entry, io);
      }
    case SetState(key, value) => StateApart(t, hasher, log, key, value);
    case RecordAction(key, status) => LedgerApart(t, hasher, log, t.ledger[key := status]);
  }

  lemma {:induction false} RunRefines(hasher: Hasher, ops: seq<StoreOp>)
    requires forall op | op in ops && op.SetState? :: op.key != ANCHOR_KEY
    ensures Represents(TablesAfter(hasher, ops), hasher, LogAfter(hasher, ops))
    ensures TablesAfter(hasher, ops).nextId == |LogAfter(hasher, ops)| + 1
  {
    if ops == [] {
      EmptyRefines(hasher);
    } else {
      var before, op := ops[..|ops| - 1], ops[|ops| - 1];
      RunRefines(hasher, before);
      OpRefines(TablesAfter(hasher, before), hasher, LogAfter(hasher, before), op);
    }
  }

  lemma EmptyRefines(hasher: Hasher)
    ensures Represents(EMPTY, hasher, [])
  {
  }

  /** After any run of appends, under limits that change from opening to opening, with failures anywhere and with
      state and ledger writes in between, the store is the end of the unbounded log and verifies in full. */
  lemma AuditRefinement(hasher: Hasher, ops: seq<StoreOp>)
    requires forall op | op in ops && op.SetState? :: op.key != ANCHOR_KEY
    ensures var t := TablesAfter(hasher, ops);
            Represents(t, hasher, LogAfter(hasher, ops)) && Chain(hasher, Anchor(hasher, t), t.rows)
    ensures ops != [] && Accepted(TablesAfter(hasher, ops[..|ops| - 1]), hasher, ops[|ops| - 1]) ==>
            ops[|ops| - 1].maxRecords == 0 || |TablesAfter(hasher, ops).rows| <= ops[|ops| - 1].maxRecords
  {
    RunRefines(hasher, ops);
    RepresentsVerifies(TablesAfter(hasher, ops), hasher, LogAfter(hasher, ops));
    if ops != [] && Accepted(TablesAfter(hasher, ops[..|ops| - 1]), hasher, ops[|ops| - 1]) {
      RetentionExact(hasher, ops);
    }
  }

  /** `rows` are the last `kept` of `log`, ending in the given entry. */
  predicate EndsWith(log: seq<Row>, rows: seq<Row>, kept: nat, entry: Entry, timestamp: string) {
    && 0 < kept <= |log| && rows == log[|log| - kept..]
    && log[|log| - 1].entry == entry && log[|log| - 1].timestamp == timestamp
  }

  lemma RepresentedEnd(t: Tables, hasher: Hasher, log: seq<Row>, entry: Entry, timestamp: string)
    requires Represents(t, hasher, log) && t.rows != []
    requires log != [] && log[|log| - 1].entry == entry && log[|log| - 1].timestamp == timestamp
    ensures EndsWith(log, t.rows, |t.rows|, entry, timestamp)
  {
  }

  lemma LogWithLast(log: seq<Row>, hasher: Hasher, entry: Entry, timestamp: string)
    ensures var longer := LogWith(log, hasher, entry, timestamp);
            longer != [] && longer[|longer| - 1].entry == entry && longer[|longer| - 1].timestamp == timestamp
  {
  }

  lemma RetentionStep(t: Tables, hasher: Hasher, log: seq<Row>, op: StoreOp)
    requires Represents(t, hasher, log) && t.nextId == |log| + 1 && Accepted(t, hasher, op)
    ensures var kept := if op.maxRecords == 0 || |t.rows| + 1 <= op.maxRecords then |t.rows| + 1 else op.maxRecords;
            EndsWith(LogWith(log, hasher, op.entry, op.io.timestamp), Apply(t, hasher, op).rows, kept, op.entry, op.io.timestamp)
  {
    var next, longer := Apply(t, hasher, op), LogWith(log, hasher, op.entry, op.io.timestamp);
    OpRefines(t, hasher, log, op);
    assert |next.rows| == Retained(|t.rows| + 1, op.maxRecords);
    LogWithLast(log, hasher, op.entry, op.io.timestamp);
    RepresentedEnd(next, hasher, longer, op.entry, op.io.timestamp);
  }

  /** What an accepted append leaves in any run: all rows there were and the new one if the limit allows so many or there is
      none, and otherwise exactly as many as the limit allows. They are the last of the log, so the new record is always
      among them. */
  lemma RetentionExact(hasher: Hasher, ops: seq<StoreOp>)
    requires forall op | op in ops && op.SetState? :: op.key != ANCHOR_KEY
    requires ops != [] && Accepted(TablesAfter(hasher, ops[..|ops| - 1]), hasher, ops[|ops| - 1])
    ensures var before, limit := |TablesAfter(hasher, ops[..|ops| - 1]).rows|, ops[|ops| - 1].maxRecords;
            var kept := if limit == 0 || before + 1 <= limit then before + 1 else limit;
            var rows, log := TablesAfter(hasher, ops).rows, LogAfter(hasher, ops);
            EndsWith(log, rows, kept, ops[|ops| - 1].entry, ops[|ops| - 1].io.timestamp)
  {
    var before, op := ops[..|ops| - 1], ops[|ops| - 1];
    RunRefines(hasher, before);
    RetentionStep(TablesAfter(hasher, before), hasher, LogAfter(hasher, before), op);
  }

  ghost predicate DistinctHashes(rows: seq<Row>) {
    forall i, j | 0 <= i < j < |rows| :: rows[i].hash != rows[j].hash
  }

  lemma GrownDistinct(t: Tables, hasher: Hasher, entry: Entry, io: Io)
    requires DistinctHashes(t.rows) && AppendSucceeds(t, hasher, entry, io)
    ensures DistinctHashes(Grown(t, NewRow(t, hasher, entry, io.timestamp)).rows)
  {
    assert forall i | 0 <= i < |t.rows| :: t.rows[i] in t.rows;
  }

  lemma SuffixDistinct(rows: seq<Row>, k: nat)
    requires DistinctHashes(rows) && k <= |rows|
    ensures DistinctHashes(rows[k..])
  {
  }

  lemma AppendDistinct(t: Tables, hasher: Hasher, log: seq<Row>, maxRecords: nat, entry: Entry, io: Io)
    requires Represents(t, hasher, log) && DistinctHashes(t.rows)
    ensures DistinctHashes(AppendRow(t, hasher, maxRecords, entry, io).rows)
  {
    if AppendSucceeds(t, hasher, entry, io) {
      var row := NewRow(t, hasher, entry, io.timestamp);
      var grown := Grown(t, row);
      GrownDistinct(t, hasher, entry, io);
      GrowRefines(t, hasher, log, entry, io.timestamp);
      SuffixAscending(grown, hasher, log + [row]);
      PruneDropsExcess(grown, maxRecords);
      var kept := if maxRecords == 0 || |grown.rows| <= maxRecords then |grown.rows| else maxRecords;
      SuffixDistinct(grown.rows, |grown.rows| - kept);
    }
  }

  /** No two retained records ever share a hash. */
  lemma {:induction false} HashesStayDistinct(hasher: Hasher, ops: seq<StoreOp>)
    requires forall op | op in ops && op.SetState? :: op.key != ANCHOR_KEY
    ensures DistinctHashes(TablesAfter(hasher, ops).rows)
  {
    if ops != [] {
      var before, op := ops[..|ops| - 1], ops[|ops| - 1];
      HashesStayDistinct(hasher, before);
      if op.Append? {
        RunRefines(hasher, before);
        AppendDistinct(TablesAfter(hasher, before), hasher, LogAfter(hasher, before), op.maxRecords, op.entry, op.io);
      }
    }
  }

  // ---------------------------------------------------------------- uniqueness of chains

  /** The texts of a row are short enough for an eight-byte length. */
  ghost predicate RowAddressable(row: Row) {
    forall f | f in HashedFields(row.previousHash, row.timestamp, row.entry) :: Addressable(f)
  }

  /** Equal in everything that is hashed. */
  predicate SameRecord(a: Row, b: Row) {
    && a.hash == b.hash && a.previousHash == b.previousHash && a.timestamp == b.timestamp
    && a.entry.kind == b.entry.kind && a.entry.payload == b.entry.payload
    && TextOr(a.entry.eventId) == TextOr(b.entry.eventId) && TextOr(a.entry.ruleId) == TextOr(b.entry.ruleId)
  }

  /** The bytes a row's hash is made from. */
  function HashedBytes(row: Row): seq<byte> {
    EncodeFields(HashedFields(row.previousHash, row.timestamp, row.entry))
  }

  /** Two different byte strings, those hashed for these two rows, with one digest. */
  predicate Collide(digest: Digest, a: Row, b: Row) {
    HashedBytes(a) != HashedBytes(b) && digest(HashedBytes(a)) == digest(HashedBytes(b))
  }

  lemma BytesDetermineRecord(a: Row, b: Row)
    requires RowAddressable(a) && RowAddressable(b) && a.hash == b.hash && HashedBytes(a) == HashedBytes(b)
    ensures SameRecord(a, b)
  {
    var x, y := HashedFields(a.previousHash, a.timestamp, a.entry), HashedFields(b.previousHash, b.timestamp, b.entry);
    EncodeFieldsInjective(x, y);
    var s, t := HashedTexts(a.previousHash, a.timestamp, a.entry), HashedTexts(b.previousHash, b.timestamp, b.entry);
    forall i | 0 <= i < 6 ensures s[i] == t[i] {
      assert x[i] == y[i];
      Utf8Injective(s[i], t[i]);
    }
    assert s[0] == t[0] && s[1] == t[1] && s[2] == t[2] && s[3] == t[3] && s[4] == t[4] && s[5] == t[5];
  }

  /** Equal record hashes mean equal records, or the records themselves are a collision of the digest. */
  lemma HashDeterminesRecord(digest: Digest, a: Row, b: Row)
    requires RowAddressable(a) && RowAddressable(b) && a.hash == b.hash
    requires a.hash == RecordHash(digest, a.previousHash, a.timestamp, a.entry)
    requires b.hash == RecordHash(digest, b.previousHash, b.timestamp, b.entry)
    ensures SameRecord(a, b) || Collide(digest, a, b)
  {
    if HashedBytes(a) == HashedBytes(b) {
      BytesDetermineRecord(a, b);
    }
  }

  lemma PrefixChain(hasher: Hasher, anchor: string, rows: seq<Row>, n: nat)
    requires Chain(hasher, anchor, rows) && n <= |rows|
    ensures Chain(hasher, anchor, rows[..n])
  {
    forall i | 0 <= i < n ensures LinkedAt(hasher, anchor, rows[..n], i) {
      assert LinkedAt(hasher, anchor, rows, i);
    }
  }

  /** Two tables of the same length that both verify and end in the same hash agree row by row on every hashed field, so
      that nothing was altered, inserted, removed or reordered; or else they exhibit a collision of the digest between the
      rows at some position, behind which they agree. */
  lemma {:induction false} ChainUnique(digest: Digest, genesis: string, anchor: string, a: seq<Row>, b: seq<Row>)
    requires |a| == |b|
    requires Chain(HasherOf(digest, genesis), anchor, a) && Chain(HasherOf(digest, genesis), anchor, b)
    requires (forall row | row in a :: RowAddressable(row)) && (forall row | row in b :: RowAddressable(row))
    requires HashBefore(anchor, a, |a|) == HashBefore(anchor, b, |b|)
    ensures AgreeOrCollide(digest, a, b)
  {
    if a != [] {
      var n := |a| - 1;
      assert LinkedAt(HasherOf(digest, genesis), anchor, a, n) && LinkedAt(HasherOf(digest, genesis), anchor, b, n);
      HashDeterminesRecord(digest, a[n], b[n]);
      if SameRecord(a[n], b[n]) {
        PrefixChain(HasherOf(digest, genesis), anchor, a, n);
        PrefixChain(HasherOf(digest, genesis), anchor, b, n);
        ChainUnique(digest, genesis, anchor, a[..n], b[..n]);
        OneMoreRow(digest, a, b);
      } else {
        assert CollideAt(digest, a, b, n);
      }
    }
  }

  ghost predicate AgreeFrom(a: seq<Row>, b: seq<Row>, k: nat)
    requires |a| == |b|
  {
    forall i | k <= i < |a| :: SameRecord(a[i], b[i])
  }

  ghost predicate CollideAt(digest: Digest, a: seq<Row>, b: seq<Row>, k: nat)
    requires |a| == |b|
  {
    k < |a| && Collide(digest, a[k], b[k]) && AgreeFrom(a, b, k + 1)
  }

  ghost predicate AgreeOrCollide(digest: Digest, a: seq<Row>, b: seq<Row>)
    requires |a| == |b|
  {
    AgreeFrom(a, b, 0) || exists k: nat :: CollideAt(digest, a, b, k)
  }

  lemma AgreeMore(a: seq<Row>, b: seq<Row>, k: nat)
    requires |a| == |b| > 0 && SameRecord(a[|a| - 1], b[|a| - 1]) && AgreeFrom(a[..|a| - 1], b[..|a| - 1], k)
    ensures AgreeFrom(a, b, k)
  {
    var n := |a| - 1;
    forall i | k <= i < |a| ensures SameRecord(a[i], b[i]) {
      if i < n {
        assert SameRecord(a[..n][i], b[..n][i]);
      }
    }
  }

  lemma OneMoreRow(digest: Digest, a: seq<Row>, b: seq<Row>)
    requires |a| == |b| > 0 && SameRecord(a[|a| - 1], b[|a| - 1]) && AgreeOrCollide(digest, a[..|a| - 1], b[..|a| - 1])
    ensures AgreeOrCollide(digest, a, b)
  {
    var n := |a| - 1;
    if AgreeFrom(a[..n], b[..n], 0) {
      AgreeMore(a, b, 0);
    } else {
      var k: nat :| CollideAt(digest, a[..n], b[..n], k);
      AgreeMore(a, b, k + 1);
      assert CollideAt(digest, a, b, k);
    }
  }

  /** The one thing the digest does not tell apart: an absent identifier and an empty one. */
  lemma AbsentAndEmptyHashAlike(digest: Digest, previous: string, timestamp: string, kind: string, payload: string)
    ensures RecordHash(digest, previous, timestamp, Entry(None, kind, None, payload)) ==
            RecordHash(digest, previous, timestamp, Entry(Some(""), kind, Some(""), payload))
  {
    var a, b := Entry(None, kind, None, payload), Entry(Some(""), kind, Some(""), payload);
    assert HashedTexts(previous, timestamp, a) == HashedTexts(previous, timestamp, b);
    assert HashedFields(previous, timestamp, a) == HashedFields(previous, timestamp, b);
  }
}
