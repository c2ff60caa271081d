/**
 * The reconciliation edge function (supabase/functions/offline-sync/index.ts).
 *
 * One POST carries a batch of queued events. Each event is validated, its
 * employee code (and terminal code, when given) is resolved to a canonical
 * id, a committed row with the same (employee id, clock_in) is looked for,
 * and otherwise a row is inserted with `synced_at` and one audit record is
 * appended. Every event yields exactly one result; the response reports how
 * many succeeded and how many did not.
 *
 * The database is the class `Database`; `Process` is the same batch walk on
 * values and is the specification the handler is proved against. What the
 * database answers beyond its tables (a lookup that errors, an insert that
 * is refused, the server clock) comes from an oracle `env: nat -> Env`
 * indexed by the event's position in the batch.
 */
module Reconcile {
  import opened Types

  const MissingFieldsError := "Missing required fields: employee_id and clock_in"
  const DuplicateError := "Duplicate entry detected"
  const SyncAction := "OFFLINE_SYNC"
  const EntriesTable := "clock_entries"

  /** A row of `audit_logs`: `new_data` is the committed row plus the
      event's `offline_timestamp`. */
  datatype AuditRecord = AuditRecord(
    employeeId: string, action: string, tableName: string,
    recordId: nat, newData: ClockEntry, offlineTimestamp: string)

  /** One element of the `results` array. */
  datatype EntryResult = EntryResult(
    entry: OfflineClockEntry, success: bool, error: Option<string>, clockEntryId: Option<nat>)

  /** What the database does for the event at one position, beyond its tables:
      `now` is `new Date().toISOString()`; a failing employee or terminal
      lookup reads as "not found"; a failing duplicate query reads as "no
      duplicate" (its error is not inspected); `insertError` is the message
      of a refused insert; a failing audit insert is ignored. */
  datatype Env = Env(
    now: string,
    employeeLookupFails: bool,
    terminalLookupFails: bool,
    dedupQueryFails: bool,
    insertError: Option<string>,
    auditFails: bool)

  /** The tables the handler reads and writes: the employee and terminal
      directories (human code to canonical id), `clock_entries`, `audit_logs`,
      and the next id the database will hand out. */
  datatype Store = Store(
    employees: map<string, string>,
    terminals: map<string, string>,
    rows: seq<ClockEntry>,
    audit: seq<AuditRecord>,
    nextId: nat)

  /** The request body after `req.json()`: an `entries` array, an `entries`
      field that is not an array, or a body that does not parse. */
  datatype Body = Entries(items: seq<OfflineClockEntry>) | EntriesNotArray | Malformed(reason: string)
  datatype Request = Request(httpMethod: string, body: Body)

  datatype Response =
    | MethodNotAllowed
    | InvalidFormat
    | ServerError(message: string)
    | Synced(synced: nat, failed: nat, results: seq<EntryResult>)

  function Status(r: Response): (code: int)
    ensures code == 200 <==> r.Synced?
    ensures r.MethodNotAllowed? <==> code == 405
    ensures r.InvalidFormat? <==> code == 400
  {
    match r
    case MethodNotAllowed => 405
    case InvalidFormat => 400
    case ServerError(_) => 500
    case Synced(_, _, _) => 200
  }

  function Failure(entry: OfflineClockEntry, message: string): EntryResult {
    EntryResult(entry, false, Some(message), None)
  }

  // ---------------------------------------------------------------------
  // The duplicate query: `.eq(employee).eq(clock_in).maybeSingle()`

  /** Number of committed rows with the given (employee id, clock_in). */
  function MatchCount(rows: seq<ClockEntry>, employee: string, clockIn: string): nat
  {
    if rows == [] then 0
    else MatchCount(rows[..|rows| - 1], employee, clockIn)
         + if rows[|rows| - 1].employeeId == employee && rows[|rows| - 1].clockIn == clockIn then 1 else 0
  }

  lemma MatchCountAppend(rows: seq<ClockEntry>, row: ClockEntry, employee: string, clockIn: string)
    ensures MatchCount(rows + [row], employee, clockIn)
            == MatchCount(rows, employee, clockIn) + if row.employeeId == employee && row.clockIn == clockIn then 1 else 0
  {
    assert (rows + [row])[..|rows|] == rows;
  }

  /** No committed row has the key exactly when the count is zero. */
  lemma {:induction false} MatchCountZero(rows: seq<ClockEntry>, employee: string, clockIn: string)
    ensures MatchCount(rows, employee, clockIn) == 0
            <==> forall i :: 0 <= i < |rows| ==> !(rows[i].employeeId == employee && rows[i].clockIn == clockIn)
  {
    if rows != [] {
      var init := rows[..|rows| - 1];
      MatchCountZero(init, employee, clockIn);
      assert forall i :: 0 <= i < |init| ==> init[i] == rows[i];
    }
  }

  /** At most one committed row per (employee id, clock_in). */
  ghost predicate UniqueKeys(rows: seq<ClockEntry>) {
    forall employee, clockIn :: MatchCount(rows, employee, clockIn) <= 1
  }

  // ---------------------------------------------------------------------
  // One event

  /** The event has both required fields and its employee code, and its
      terminal code when one is given, resolve. */
  predicate Resolves(s: Store, e: OfflineClockEntry, v: Env) {
    && e.employeeId != "" && e.clockIn != ""
    && !v.employeeLookupFails && e.employeeId in s.employees
    && (Truthy(e.terminalId) ==> !v.terminalLookupFails && e.terminalId.value in s.terminals)
  }

  /** `existingEntry` is truthy: the duplicate query answered with exactly one row. */
  predicate IsDuplicate(s: Store, e: OfflineClockEntry, v: Env)
    requires Resolves(s, e, v)
  {
    !v.dedupQueryFails && MatchCount(s.rows, s.employees[e.employeeId], e.clockIn) == 1
  }

  /** The event reaches a successful insert. */
  predicate Accepted(s: Store, e: OfflineClockEntry, v: Env) {
    Resolves(s, e, v) && !IsDuplicate(s, e, v) && v.insertError.None?
  }

  /** The `for` body for one event: validate, resolve, look for a duplicate,
      insert, audit. */
  function Step(s: Store, e: OfflineClockEntry, v: Env): (out: (Store, EntryResult))
    ensures out.1.entry == e
    ensures out.0.employees == s.employees && out.0.terminals == s.terminals
    ensures out.1.success <==> Accepted(s, e, v)
    ensures !out.1.success ==> out.0 == s && out.1.error.Some? && out.1.clockEntryId.None?
    ensures Resolves(s, e, v) && IsDuplicate(s, e, v) ==> out.1 == Failure(e, DuplicateError)
    ensures Resolves(s, e, v) && !IsDuplicate(s, e, v) && v.insertError.Some? ==> out.1 == Failure(e, v.insertError.value)
    ensures out.1.success ==>
      && out.1.error.None? && out.1.clockEntryId == Some(s.nextId)
      && out.0.nextId == s.nextId + 1
      && |out.0.rows| == |s.rows| + 1 && out.0.rows[..|s.rows|] == s.rows
      && s.audit <= out.0.audit && |out.0.audit| <= |s.audit| + 1
    // The inserted row: the resolved ids, the event's times, null for a falsy
    // clock_out or notes, and synced_at.
    ensures out.1.success ==>
      && e.employeeId in s.employees
      && var row := out.0.rows[|s.rows|];
      && row.id == s.nextId
      && row.employeeId == s.employees[e.employeeId]
      && (row.terminalId.Some? <==> Truthy(e.terminalId))
      && (row.terminalId.Some? ==> e.terminalId.value in s.terminals && row.terminalId.value == s.terminals[e.terminalId.value])
      && row.clockIn == e.clockIn && row.clockOut == OrNull(e.clockOut) && row.notes == OrNull(e.notes)
      && row.syncedAt == Some(v.now)
    // The audit record: one, for the new row, unless the audit insert failed.
    ensures out.1.success ==>
      && |out.0.audit| == |s.audit| + (if v.auditFails then 0 else 1)
      && (!v.auditFails ==>
            var record := out.0.audit[|s.audit|];
            && record.recordId == s.nextId && record.newData == out.0.rows[|s.rows|]
            && record.employeeId == s.employees[e.employeeId]
            && record.action == SyncAction && record.tableName == EntriesTable
            && record.offlineTimestamp == e.offlineTimestamp)
  {
    if e.employeeId == "" || e.clockIn == "" then
      (s, Failure(e, MissingFieldsError))
    else if v.employeeLookupFails || e.employeeId !in s.employees then
      (s, Failure(e, "Employee not found: " + e.employeeId))
    else if Truthy(e.terminalId) && (v.terminalLookupFails || e.terminalId.value !in s.terminals) then
      (s, Failure(e, "Terminal not found: " + e.terminalId.value))
    else
      var employee := s.employees[e.employeeId];
      var terminal := if Truthy(e.terminalId) then Some(s.terminals[e.terminalId.value]) else None;
      if !v.dedupQueryFails && MatchCount(s.rows, employee, e.clockIn) == 1 then
        (s, Failure(e, DuplicateError))
      else if v.insertError.Some? then
        (s, Failure(e, v.insertError.value))
      else
        var row := ClockEntry(s.nextId, employee, terminal, e.clockIn, OrNull(e.clockOut), OrNull(e.notes), Some(v.now));
        var audit := if v.auditFails then s.audit
                     else s.audit + [AuditRecord(employee, SyncAction, EntriesTable, row.id, row, e.offlineTimestamp)];
        (s.(rows := s.rows + [row], audit := audit, nextId := s.nextId + 1),
         EntryResult(e, true, None, Some(row.id)))
  }

  // ---------------------------------------------------------------------
  // The batch

  /** `results.filter(r => r.success).length` */
  function Successes(rs: seq<EntryResult>): nat {
    if rs == [] then 0 else Successes(rs[..|rs| - 1]) + if rs[|rs| - 1].success then 1 else 0
  }

  /** `results.filter(r => !r.success).length` */
  function Failures(rs: seq<EntryResult>): nat {
    if rs == [] then 0 else Failures(rs[..|rs| - 1]) + if rs[|rs| - 1].success then 0 else 1
  }

  /** The batch walk: every event is processed against the store left by the
      events before it, and pushes exactly one result.  */
  function Process(s: Store, items: seq<OfflineClockEntry>, env: nat -> Env): (out: (Store, seq<EntryResult>))
    decreases |items|
    ensures |out.1| == |items|
    ensures forall j :: 0 <= j < |items| ==> out.1[j].entry == items[j]
    ensures out.0.employees == s.employees && out.0.terminals == s.terminals
    ensures s.rows <= out.0.rows && |out.0.rows| == |s.rows| + Successes(out.1)
    ensures s.audit <= out.0.audit && |out.0.audit| <= |s.audit| + Successes(out.1)
    ensures out.0.nextId == s.nextId + Successes(out.1)
    ensures Successes(out.1) == 0 ==> out.0 == s
  {
    if items == [] then (s, [])
    else
      var before := Process(s, items[..|items| - 1], env);
      var last := Step(before.0, items[|items| - 1], env(|items| - 1));
      assert (before.1 + [last.1])[..|before.1|] == before.1;
      (last.0, before.1 + [last.1])
  }

  lemma {:induction false} CountsPartition(rs: seq<EntryResult>)
    ensures Successes(rs) + Failures(rs) == |rs|
    ensures Successes(rs) == |rs| <==> forall j :: 0 <= j < |rs| ==> rs[j].success
    ensures Failures(rs) == |rs| <==> forall j :: 0 <= j < |rs| ==> !rs[j].success
  {
    if rs != [] {
      var init := rs[..|rs| - 1];
      CountsPartition(init);
      assert forall j :: 0 <= j < |init| ==> init[j] == rs[j];
    }
  }

  /** The result at position j is the one-event step applied to the store
      that the events before j left behind. */
  lemma {:induction false} ResultAt(s: Store, items: seq<OfflineClockEntry>, env: nat -> Env, j: nat)
    requires j < |items|
    ensures Process(s, items, env).1[j] == Step(Process(s, items[..j], env).0, items[j], env(j)).1
  {
    var init := items[..|items| - 1];
    if j < |items| - 1 {
      ResultAt(s, init, env, j);
      assert init[..j] == items[..j];
    } else {
      assert init == items[..j];
    }
  }

  /** The rejections, stated for the whole batch: missing fields, an unknown
      employee, a given but unknown terminal. None of them inserts a row. */
  lemma BatchRejections(s: Store, items: seq<OfflineClockEntry>, env: nat -> Env)
    ensures var rs := Process(s, items, env).1;
      forall j :: 0 <= j < |items| ==>
        && ((items[j].employeeId == "" || items[j].clockIn == "") ==> rs[j] == Failure(items[j], MissingFieldsError))
        && ((items[j].employeeId != "" && items[j].clockIn != "" && items[j].employeeId !in s.employees)
              ==> rs[j] == Failure(items[j], "Employee not found: " + items[j].employeeId))
        && ((items[j].employeeId != "" && items[j].clockIn != "" && items[j].employeeId in s.employees
             && !env(j).employeeLookupFails && Truthy(items[j].terminalId) && items[j].terminalId.value !in s.terminals)
              ==> rs[j] == Failure(items[j], "Terminal not found: " + items[j].terminalId.value))
  {
    forall j | 0 <= j < |items| {
      ResultAt(s, items, env, j);
    }
  }

  /** The j-th event succeeds exactly when it is accepted against the tables
      the events before it left behind; a duplicate and a refused insert fail
      with their own messages. */
  lemma BatchOutcomes(s: Store, items: seq<OfflineClockEntry>, env: nat -> Env)
    ensures var rs := Process(s, items, env).1;
      forall j :: 0 <= j < |items| ==>
        var before := Process(s, items[..j], env).0;
        && (rs[j].success <==> Accepted(before, items[j], env(j)))
        && ((Resolves(before, items[j], env(j)) && IsDuplicate(before, items[j], env(j)))
              ==> rs[j] == Failure(items[j], DuplicateError))
        && ((Resolves(before, items[j], env(j)) && !IsDuplicate(before, items[j], env(j)) && env(j).insertError.Some?)
              ==> rs[j] == Failure(items[j], env(j).insertError.value))
  {
    forall j | 0 <= j < |items| {
      ResultAt(s, items, env, j);
    }
  }

  /** A batch none of whose events passes leaves every table as it was. */
  lemma NoSuccessNoChange(s: Store, items: seq<OfflineClockEntry>, env: nat -> Env)
    requires forall j :: 0 <= j < |items| ==> !Process(s, items, env).1[j].success
    ensures Process(s, items, env).0 == s
  {
    CountsPartition(Process(s, items, env).1);
  }

  // ---------------------------------------------------------------------
  // Well-formed tables

  /** Row ids are distinct and below the next id; every audit record refers
      to, and copies, a committed row. */
  predicate Wellformed(s: Store) {
    && (forall i :: 0 <= i < |s.rows| ==> s.rows[i].id < s.nextId)
    && (forall i, j :: 0 <= i < j < |s.rows| ==> s.rows[i].id != s.rows[j].id)
    && (forall k :: 0 <= k < |s.audit| ==> s.audit[k].newData in s.rows && s.audit[k].recordId == s.audit[k].newData.id)
  }

  lemma StepPreservesWellformed(s: Store, e: OfflineClockEntry, v: Env)
    requires Wellformed(s)
    ensures Wellformed(Step(s, e, v).0)
  {
    var out := Step(s, e, v);
    if out.1.success {
      var rows := out.0.rows;
      assert rows == s.rows + [rows[|s.rows|]];
      forall k | 0 <= k < |out.0.audit|
        ensures out.0.audit[k].newData in rows && out.0.audit[k].recordId == out.0.audit[k].newData.id
      {
        if k < |s.audit| {
          assert out.0.audit[k] == s.audit[k];
        }
      }
    }
  }

  lemma {:induction false} ProcessPreservesWellformed(s: Store, items: seq<OfflineClockEntry>, env: nat -> Env)
    requires Wellformed(s)
    ensures Wellformed(Process(s, items, env).0)
  {
    if items != [] {
      var before := Process(s, items[..|items| - 1], env);
      ProcessPreservesWellformed(s, items[..|items| - 1], env);
      StepPreservesWellformed(before.0, items[|items| - 1], env(|items| - 1));
    }
  }

  // ---------------------------------------------------------------------
  // Resubmission

  /** The duplicate query never errors. */
  ghost predicate DedupReliable(env: nat -> Env) {
    forall i :: !env(i).dedupQueryFails
  }

  /** The event's key is committed exactly once, so its duplicate query finds it. */
  predicate Committed(s: Store, e: OfflineClockEntry) {
    && e.employeeId != "" && e.clockIn != ""
    && e.employeeId in s.employees
    && MatchCount(s.rows, s.employees[e.employeeId], e.clockIn) == 1
  }

  lemma StepKeepsUniqueKeys(s: Store, e: OfflineClockEntry, v: Env)
    requires UniqueKeys(s.rows) && !v.dedupQueryFails
    ensures UniqueKeys(Step(s, e, v).0.rows)
  {
    var out := Step(s, e, v);
    if out.1.success {
      var row := out.0.rows[|s.rows|];
      assert out.0.rows == s.rows + [row];
      forall employee, clockIn ensures MatchCount(out.0.rows, employee, clockIn) <= 1 {
        MatchCountAppend(s.rows, row, employee, clockIn);
      }
    }
  }

  lemma StepKeepsCommitted(s: Store, e: OfflineClockEntry, v: Env, x: OfflineClockEntry)
    requires UniqueKeys(s.rows) && !v.dedupQueryFails && Committed(s, x)
    ensures Committed(Step(s, e, v).0, x)
  {
    var out := Step(s, e, v);
    if out.1.success {
      var row := out.0.rows[|s.rows|];
      assert out.0.rows == s.rows + [row];
      MatchCountAppend(s.rows, row, s.employees[x.employeeId], x.clockIn);
    }
  }

  lemma StepCommitsSuccess(s: Store, e: OfflineClockEntry, v: Env)
    requires UniqueKeys(s.rows) && !v.dedupQueryFails && Step(s, e, v).1.success
    ensures Committed(Step(s, e, v).0, e)
  {
    var out := Step(s, e, v);
    var row := out.0.rows[|s.rows|];
    assert out.0.rows == s.rows + [row];
    MatchCountAppend(s.rows, row, row.employeeId, row.clockIn);
  }

  lemma StepRejectsCommitted(s: Store, e: OfflineClockEntry, v: Env)
    requires !v.dedupQueryFails && Committed(s, e)
    ensures !Step(s, e, v).1.success
  {
  }

  /** A batch whose duplicate queries all answer keeps every key unique. */
  lemma {:induction false} ProcessKeepsUniqueKeys(s: Store, items: seq<OfflineClockEntry>, env: nat -> Env)
    requires UniqueKeys(s.rows) && DedupReliable(env)
    ensures UniqueKeys(Process(s, items, env).0.rows)
  {
    if items != [] {
      var before := Process(s, items[..|items| - 1], env);
      ProcessKeepsUniqueKeys(s, items[..|items| - 1], env);
      StepKeepsUniqueKeys(before.0, items[|items| - 1], env(|items| - 1));
    }
  }

  lemma {:induction false} ProcessKeepsCommitted(s: Store, items: seq<OfflineClockEntry>, env: nat -> Env, x: OfflineClockEntry)
    requires UniqueKeys(s.rows) && DedupReliable(env)
    ensures UniqueKeys(Process(s, items, env).0.rows)
    ensures Committed(s, x) ==> Committed(Process(s, items, env).0, x)
  {
    ProcessKeepsUniqueKeys(s, items, env);
    if items != [] {
      var before := Process(s, items[..|items| - 1], env);
      ProcessKeepsCommitted(s, items[..|items| - 1], env, x);
      if Committed(s, x) {
        StepKeepsCommitted(before.0, items[|items| - 1], env(|items| - 1), x);
      }
    }
  }

  /** Every event that succeeded is committed exactly once afterwards. */
  lemma {:induction false} SuccessesAreCommitted(s: Store, items: seq<OfflineClockEntry>, env: nat -> Env)
    requires UniqueKeys(s.rows) && DedupReliable(env)
    ensures var out := Process(s, items, env);
      forall j :: 0 <= j < |items| && out.1[j].success ==> Committed(out.0, items[j])
  {
    if items != [] {
      var n := |items| - 1;
      var init := items[..n];
      var before := Process(s, init, env);
      var out := Process(s, items, env);
      SuccessesAreCommitted(s, init, env);
      ProcessKeepsCommitted(s, init, env, items[n]);
      forall j | 0 <= j < |items| && out.1[j].success
        ensures Committed(out.0, items[j])
      {
        if j < n {
          assert out.1[j] == before.1[j] && items[j] == init[j];
          StepKeepsCommitted(before.0, items[n], env(n), items[j]);
        } else {
          StepCommitsSuccess(before.0, items[n], env(n));
        }
      }
    }
  }

  /** Every event already committed before the batch is rejected. */
  lemma {:induction false} CommittedAreRejected(s: Store, items: seq<OfflineClockEntry>, env: nat -> Env)
    requires UniqueKeys(s.rows) && DedupReliable(env)
    ensures var out := Process(s, items, env);
      forall j :: 0 <= j < |items| && Committed(s, items[j]) ==> !out.1[j].success
  {
    if items != [] {
      var n := |items| - 1;
      var init := items[..n];
      var before := Process(s, init, env);
      var out := Process(s, items, env);
      CommittedAreRejected(s, init, env);
      ProcessKeepsCommitted(s, init, env, items[n]);
      forall j | 0 <= j < |items| && Committed(s, items[j])
        ensures !out.1[j].success
      {
        if j < n {
          assert out.1[j] == before.1[j] && items[j] == init[j];
        } else {
          StepRejectsCommitted(before.0, items[n], env(n));
        }
      }
    }
  }

  lemma {:induction false} SuccessesBound(a: seq<EntryResult>, b: seq<EntryResult>)
    requires |a| == |b|
    requires forall j :: 0 <= j < |a| && a[j].success ==> !b[j].success
    ensures Successes(a) <= Failures(b)
  {
    if a != [] {
      var n := |a| - 1;
      assert forall j :: 0 <= j < n ==> a[..n][j] == a[j] && b[..n][j] == b[j];
      SuccessesBound(a[..n], b[..n]);
    }
  }

  /** Submitting the same batch again (a retry after a lost response): no
      event that succeeded the first time succeeds again, the second pass
      commits at most as many rows as the first pass failed to, and a batch
      that fully succeeded adds nothing at all the second time. */
  lemma Resubmission(s: Store, items: seq<OfflineClockEntry>, env1: nat -> Env, env2: nat -> Env)
    requires UniqueKeys(s.rows) && DedupReliable(env1) && DedupReliable(env2)
    ensures var first := Process(s, items, env1);
      var second := Process(first.0, items, env2);
      && (forall j :: 0 <= j < |items| && first.1[j].success ==> !second.1[j].success)
      && |second.0.rows| <= |first.0.rows| + Failures(first.1)
      && ((forall j :: 0 <= j < |items| ==> first.1[j].success) ==> second.0 == first.0)
  {
    var first := Process(s, items, env1);
    var second := Process(first.0, items, env2);
    SuccessesAreCommitted(s, items, env1);
    ProcessKeepsUniqueKeys(s, items, env1);
    CommittedAreRejected(first.0, items, env2);
    SuccessesBound(second.1, first.1);
    CountsPartition(first.1);
  }

  // ---------------------------------------------------------------------
  // The handler

  class Database {
    var employees: map<string, string>
    var terminals: map<string, string>
    var clockEntries: seq<ClockEntry>
    var auditLogs: seq<AuditRecord>
    var nextId: nat

    constructor (employees: map<string, string>, terminals: map<string, string>)
      ensures State() == Store(employees, terminals, [], [], 0) && Wellformed(State())
    {
      this.employees := employees;
      this.terminals := terminals;
      clockEntries := [];
      auditLogs := [];
      nextId := 0;
    }

    function State(): Store
      reads this
    {
      Store(employees, terminals, clockEntries, auditLogs, nextId)
    }

    /** The body of the `for` loop for one event; each early exit is one
        `results.push(...); continue;` of the handler. */
    method Ingest(entry: OfflineClockEntry, v: Env) returns (result: EntryResult)
      modifies this
      ensures (State(), result) == Step(old(State()), entry, v)
    {
      if entry.employeeId == "" || entry.clockIn == "" {
        return Failure(entry, MissingFieldsError);
      }
      if v.employeeLookupFails || entry.employeeId !in employees {
        return Failure(entry, "Employee not found: " + entry.employeeId);
      }
      var employee := employees[entry.employeeId];
      var terminal: Option<string> := None;
      if Truthy(entry.terminalId) {
        if v.terminalLookupFails || entry.terminalId.value !in terminals {
          return Failure(entry, "Terminal not found: " + entry.terminalId.value);
        }
        terminal := Some(terminals[entry.terminalId.value]);
      }
      var existing := !v.dedupQueryFails && MatchCount(clockEntries, employee, entry.clockIn) == 1;
      if existing {
        return Failure(entry, DuplicateError);
      }
      if v.insertError.Some? {
        return Failure(entry, v.insertError.value);
      }
      var row := ClockEntry(nextId, employee, terminal, entry.clockIn, OrNull(entry.clockOut), OrNull(entry.notes), Some(v.now));
      clockEntries := clockEntries + [row];
      nextId := nextId + 1;
      if !v.auditFails {
        auditLogs := auditLogs + [AuditRecord(employee, SyncAction, EntriesTable, row.id, row, entry.offlineTimestamp)];
      }
      result := EntryResult(entry, true, None, Some(row.id));
    }

    /** The `for` loop over the batch: one result per event, in order. */
    method IngestAll(items: seq<OfflineClockEntry>, env: nat -> Env) returns (results: seq<EntryResult>)
      modifies this
      ensures (State(), results) == Process(old(State()), items, env)
    {
      results := [];
      ghost var start := State();
      for i := 0 to |items|
        invariant (State(), results) == Process(start, items[..i], env)
      {
        assert items[..i + 1][..i] == items[..i];
        var result := Ingest(items[i], env(i));
        results := results + [result];
      }
      assert items[..|items|] == items;
    }

    /** The `serve` handler: 405 for anything but POST, 500 for a body that
        does not parse, 400 when `entries` is not an array, otherwise the
        batch walk and the counts. */
    method Serve(req: Request, env: nat -> Env) returns (resp: Response)
      modifies this
      ensures req.httpMethod != "POST" ==> resp == MethodNotAllowed && State() == old(State())
      ensures req.httpMethod == "POST" && req.body.Malformed? ==> resp == ServerError(req.body.reason) && State() == old(State())
      ensures req.httpMethod == "POST" && req.body.EntriesNotArray? ==> resp == InvalidFormat && State() == old(State())
      ensures req.httpMethod == "POST" && req.body.Entries? ==>
        var out := Process(old(State()), req.body.items, env);
        State() == out.0 && resp == Synced(Successes(out.1), Failures(out.1), out.1)
      ensures Wellformed(old(State())) ==> Wellformed(State())
      ensures Status(resp) == 405 <==> req.httpMethod != "POST"
      ensures req.httpMethod == "POST" ==> (Status(resp) == 500 <==> req.body.Malformed?)
      ensures req.httpMethod == "POST" ==> (Status(resp) == 400 <==> req.body.EntriesNotArray?)
      ensures Status(resp) == 200 <==> req.httpMethod == "POST" && req.body.Entries?
    {
      if req.httpMethod != "POST" {
        return MethodNotAllowed;
      }
      if req.body.Malformed? {
        return ServerError(req.body.reason);
      }
      if req.body.EntriesNotArray? {
        return InvalidFormat;
      }
      var items := req.body.items;
      if Wellformed(State()) {
        ProcessPreservesWellformed(State(), items, env);
      }
      var results := IngestAll(items, env);
      resp := Synced(Successes(results), Failures(results), results);
    }
  }

  // ---------------------------------------------------------------------
  // A worked batch

  /** One known employee, one event, everything answering normally: the first
      submission commits one row; the same batch again is a duplicate, which
      the handler reports as a failure (`failed` is 1, not 0). */
  lemma ResubmittedEventCountsAsFailed()
    ensures
      var s := Store(map["E1" := "u1"], map[], [], [], 0);
      var e := OfflineClockEntry("E1", None, "2024-01-01T09:00:00Z", None, None, "2024-01-01T09:00:05Z");
      var env := (i: nat) => Env("2024-01-01T09:01:00Z", false, false, false, None, false);
      var first := Process(s, [e], env);
      var second := Process(first.0, [e], env);
      && Successes(first.1) == 1 && Failures(first.1) == 0 && |first.0.rows| == 1
      && Successes(second.1) == 0 && Failures(second.1) == 1
      && second.1[0].error == Some(DuplicateError) && second.0 == first.0
  {
    var s := Store(map["E1" := "u1"], map[], [], [], 0);
    var e := OfflineClockEntry("E1", None, "2024-01-01T09:00:00Z", None, None, "2024-01-01T09:00:05Z");
    var env := (i: nat) => Env("2024-01-01T09:01:00Z", false, false, false, None, false);
    assert [e][..0] == [];
    var first := Process(s, [e], env);
    assert first.0.rows == [ClockEntry(0, "u1", None, e.clockIn, None, None, Some("2024-01-01T09:01:00Z"))];
    assert MatchCount(first.0.rows, "u1", e.clockIn) == 1 by {
      MatchCountAppend([], first.0.rows[0], "u1", e.clockIn);
      assert [] + [first.0.rows[0]] == first.0.rows;
    }
  }
}
