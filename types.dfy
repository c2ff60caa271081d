/**
 * Records shared by the client and the server side of the clock-event pipeline
 * (src/types/index.ts), and the JavaScript "falsy" conventions the handlers use
 * on optional string fields.
 */
module Types {

  datatype Option<+T> = None | Some(value: T)

  /** An event waiting in the local queue (`OfflineClockEntry`). A required
      string field that is missing from a JSON body is represented by "". */
  datatype OfflineClockEntry = OfflineClockEntry(
    employeeId: string,          // human-facing employee code
    terminalId: Option<string>,  // human-facing terminal code
    clockIn: string,
    clockOut: Option<string>,
    notes: Option<string>,
    offlineTimestamp: string)

  /** A committed row of the `clock_entries` table (`ClockEntry`); columns the
      database computes itself (hours, overtime, created/updated) are omitted. */
  datatype ClockEntry = ClockEntry(
    id: nat,
    employeeId: string,          // canonical employee UUID
    terminalId: Option<string>,  // canonical terminal UUID
    clockIn: string,
    clockOut: Option<string>,
    notes: Option<string>,
    syncedAt: Option<string>)

  /** The fields of `Employee` and `Terminal` the pipeline reads. */
  datatype Employee = Employee(id: string, employeeId: string, firstName: string)
  datatype Terminal = Terminal(id: string, terminalId: string)

  /** JavaScript truthiness of an optional string: absent and "" are falsy. */
  predicate Truthy(o: Option<string>) {
    o.Some? && o.value != ""
  }

  /** `x || null` (or `x || undefined`) on an optional string. */
  function OrNull(o: Option<string>): (r: Option<string>)
    ensures r.Some? <==> Truthy(o)
    ensures r.Some? ==> r == o
  {
    if Truthy(o) then o else None
  }

  /** `s || null` on a plain string. */
  function NonEmpty(s: string): (r: Option<string>)
    ensures r.Some? <==> s != ""
    ensures r.Some? ==> r.value == s
  {
    if s == "" then None else Some(s)
  }
}
