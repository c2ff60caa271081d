/**
 * The superseded reconciliation handler
 * (supabase/migrations/functions/offlineSync/index.ts): every event is
 * inserted as it is, with `source = 'offline'` and a `flagged` bit that is
 * set when the server clock and the event's `clock_in` are more than two
 * minutes apart. There is no validation, no identifier resolution and no
 * duplicate check.
 *
 * Times are integer milliseconds. The server clock at the i-th iteration
 * (`new Date()`), the parsing of `clock_in` (`new Date(...).getTime()`, None
 * for an invalid date) and the outcome of the i-th insert are inputs.
 */
module SkewSync {
  import opened Types

  const OfflineSource := "offline"

  /** Two minutes. */
  const SkewLimitMs := 120000

  function Abs(x: int): nat {
    if x < 0 then -x else x
  }

  /** `Math.abs(now - clockIn) / 60000 > 2`, on integers. An invalid date
      makes the difference NaN, and a comparison with NaN is false. */
  function Flagged(nowMs: int, clockInMs: Option<int>): bool {
    clockInMs.Some? && Abs(nowMs - clockInMs.value) > SkewLimitMs
  }

  /** The integer test is the source's division by 60000 compared with 2. */
  lemma FlaggedIsMoreThanTwoMinutes(nowMs: int, clockInMs: int)
    ensures Flagged(nowMs, Some(clockInMs)) <==> (Abs(nowMs - clockInMs) as real) / 60000.0 > 2.0
  {
  }

  /** Exactly two minutes, early or late, is not flagged; one millisecond
      more is. */
  lemma FlagBoundary(t: int)
    ensures !Flagged(t + 120000, Some(t)) && !Flagged(t - 120000, Some(t))
    ensures Flagged(t + 120001, Some(t)) && Flagged(t - 120001, Some(t))
    ensures !Flagged(t, None)
  {
  }

  /** A row as inserted: the event's own fields (`...e`), `flagged`, `source`. */
  datatype SkewRow = SkewRow(entry: OfflineClockEntry, flagged: bool, source: string)

  /** `{ data, error }` of an insert without `.select()`: data is null. */
  datatype InsertResult = InsertResult(error: Option<string>)

  function RowFor(e: OfflineClockEntry, nowMs: int, parse: string -> Option<int>): SkewRow {
    SkewRow(e, Flagged(nowMs, parse(e.clockIn)), OfflineSource)
  }

  /** The rows the batch commits: those whose insert did not fail, in order. */
  function Inserted(entries: seq<OfflineClockEntry>, clock: nat -> int, parse: string -> Option<int>,
                    insertError: nat -> Option<string>): (rows: seq<SkewRow>)
    decreases |entries|
    ensures |rows| <= |entries|
    ensures forall k :: 0 <= k < |rows| ==> rows[k].source == OfflineSource
  {
    if entries == [] then []
    else
      var n := |entries| - 1;
      var before := Inserted(entries[..n], clock, parse, insertError);
      if insertError(n).None? then before + [RowFor(entries[n], clock(n), parse)] else before
  }

  /** `row` is the row of the i-th event, built with the server clock of that
      event's iteration, and the i-th insert did not fail. */
  predicate RowOfEntry(entries: seq<OfflineClockEntry>, clock: nat -> int, parse: string -> Option<int>,
                       insertError: nat -> Option<string>, i: nat, row: SkewRow) {
    i < |entries| && insertError(i).None? && row == RowFor(entries[i], clock(i), parse)
  }

  /** Every committed row is the row of some event whose insert did not fail. */
  lemma {:induction false} InsertedComeFromEntries(entries: seq<OfflineClockEntry>, clock: nat -> int,
                                                   parse: string -> Option<int>, insertError: nat -> Option<string>,
                                                   k: nat)
    requires k < |Inserted(entries, clock, parse, insertError)|
    ensures exists i: nat :: RowOfEntry(entries, clock, parse, insertError, i, Inserted(entries, clock, parse, insertError)[k])
    decreases |entries|
  {
    var n := |entries| - 1;
    var before := Inserted(entries[..n], clock, parse, insertError);
    var rows := Inserted(entries, clock, parse, insertError);
    if k < |before| {
      InsertedComeFromEntries(entries[..n], clock, parse, insertError, k);
      var i: nat :| RowOfEntry(entries[..n], clock, parse, insertError, i, before[k]);
      assert entries[..n][i] == entries[i];
      assert rows[k] == before[k];
      assert RowOfEntry(entries, clock, parse, insertError, i, rows[k]);
    } else {
      assert RowOfEntry(entries, clock, parse, insertError, n, rows[k]);
    }
  }

  /** The positions below n whose insert did not fail, in increasing order. */
  function Survivors(n: nat, insertError: nat -> Option<string>): (idx: seq<nat>)
    ensures forall k :: 0 <= k < |idx| ==> idx[k] < n && insertError(idx[k]).None?
    ensures forall i :: 0 <= i < n && insertError(i).None? ==> i in idx
    ensures forall a, b :: 0 <= a < b < |idx| ==> idx[a] < idx[b]
  {
    if n == 0 then []
    else
      var before := Survivors(n - 1, insertError);
      if insertError(n - 1).None? then before + [n - 1] else before
  }

  /** The k-th committed row is the row of the k-th event whose insert did
      not fail, and there are as many committed rows as such events. */
  lemma {:induction false} InsertedAt(entries: seq<OfflineClockEntry>, clock: nat -> int,
                                      parse: string -> Option<int>, insertError: nat -> Option<string>, k: nat)
    ensures var idx := Survivors(|entries|, insertError);
      var rows := Inserted(entries, clock, parse, insertError);
      |rows| == |idx| && (k < |rows| ==> rows[k] == RowFor(entries[idx[k]], clock(idx[k]), parse))
    decreases |entries|
  {
    if entries != [] {
      var n := |entries| - 1;
      InsertedAt(entries[..n], clock, parse, insertError, k);
      var idx := Survivors(n, insertError);
      if k < |idx| {
        assert entries[..n][idx[k]] == entries[idx[k]];
      }
    }
  }

  /** The committed rows are exactly the rows of the events whose insert did
      not fail, in the order of the events. */
  lemma InsertedIsFilter(entries: seq<OfflineClockEntry>, clock: nat -> int,
                         parse: string -> Option<int>, insertError: nat -> Option<string>)
    ensures var idx := Survivors(|entries|, insertError);
      var rows := Inserted(entries, clock, parse, insertError);
      |rows| == |idx| && forall k :: 0 <= k < |rows| ==> rows[k] == RowFor(entries[idx[k]], clock(idx[k]), parse)
  {
    InsertedAt(entries, clock, parse, insertError, 0);
    forall k | 0 <= k < |Inserted(entries, clock, parse, insertError)|
      ensures Inserted(entries, clock, parse, insertError)[k]
              == RowFor(entries[Survivors(|entries|, insertError)[k]], clock(Survivors(|entries|, insertError)[k]), parse)
    {
      InsertedAt(entries, clock, parse, insertError, k);
    }
  }

  /** An event whose insert succeeds is committed, whatever failed before or
      after it: an error does not stop the later events. */
  lemma LaterEventsStillCommitted(entries: seq<OfflineClockEntry>, clock: nat -> int,
                                  parse: string -> Option<int>, insertError: nat -> Option<string>, i: nat)
    requires i < |entries| && insertError(i).None?
    ensures RowFor(entries[i], clock(i), parse) in Inserted(entries, clock, parse, insertError)
  {
    InsertedIsFilter(entries, clock, parse, insertError);
    var idx := Survivors(|entries|, insertError);
    var k :| 0 <= k < |idx| && idx[k] == i;
    assert Inserted(entries, clock, parse, insertError)[k] == RowFor(entries[i], clock(i), parse);
  }

  /** With no insert failing, every event is inserted, in order, with nothing
      filtered out. */
  lemma {:induction false} AllInserted(entries: seq<OfflineClockEntry>, clock: nat -> int,
                                       parse: string -> Option<int>, insertError: nat -> Option<string>)
    requires forall i :: 0 <= i < |entries| ==> insertError(i).None?
    ensures var rows := Inserted(entries, clock, parse, insertError);
      |rows| == |entries| && forall i :: 0 <= i < |entries| ==> rows[i] == RowFor(entries[i], clock(i), parse)
  {
    if entries != [] {
      var n := |entries| - 1;
      AllInserted(entries[..n], clock, parse, insertError);
      assert forall i :: 0 <= i < n ==> entries[..n][i] == entries[i];
    }
  }

  /** The `clock_entries` table as this handler sees it. */
  class ClockEntriesTable {
    var rows: seq<SkewRow>

    constructor ()
      ensures rows == []
    {
      rows := [];
    }

    /** The `serve` loop: one insert attempt and one result per event, in
        order; an insert error is recorded and the loop goes on. */
    method Serve(entries: seq<OfflineClockEntry>, clock: nat -> int, parse: string -> Option<int>,
                 insertError: nat -> Option<string>) returns (results: seq<InsertResult>)
      modifies this
      ensures |results| == |entries|
      ensures forall i :: 0 <= i < |entries| ==> results[i] == InsertResult(insertError(i))
      ensures rows == old(rows) + Inserted(entries, clock, parse, insertError)
    {
      results := [];
      for i := 0 to |entries|
        invariant |results| == i
        invariant forall k :: 0 <= k < i ==> results[k] == InsertResult(insertError(k))
        invariant rows == old(rows) + Inserted(entries[..i], clock, parse, insertError)
      {
        assert entries[..i + 1][..i] == entries[..i];
        var e := entries[i];
        var nowMs := clock(i);
        var flagged := Flagged(nowMs, parse(e.clockIn));
        var error := insertError(i);
        if error.None? {
          rows := rows + [SkewRow(e, flagged, OfflineSource)];
        }
        results := results + [InsertResult(error)];
      }
      assert entries[..|entries|] == entries;
    }
  }
}
