/**
 * The time-clock screen (src/components/ClockPad.tsx): recording a clock-in
 * or a clock-out, either directly in the database or (offline) in the local
 * queue, and replaying the queue to the sync endpoint.
 *
 * The database and the network are inputs: `Env` gives the value of
 * `isOnline()` for the action, whether the insert or update reports an error,
 * and what the open-entry query returns. A write that the database accepted
 * is returned by the handler as a `DbWrite`.
 */
module ClockCapture {
  import opened Types
  import LocalQueue

  datatype MessageKind = Success | Error
  datatype Message = Message(kind: MessageKind, text: string)

  datatype ClockAction = In | Out

  /** A write to `clock_entries` that the database accepted. */
  datatype DbWrite =
    | InsertClockIn(employeeId: string, terminalId: Option<string>, clockIn: string, notes: Option<string>)
    | UpdateClockOut(entryId: nat, clockOut: string, notes: Option<string>)

  /** The latest open entry of the employee (`.maybeSingle()` on the query). */
  datatype OpenEntryQuery = QueryError | NoOpenEntry | OpenEntry(id: nat)

  datatype Env = Env(online: bool, insertFails: bool, openEntry: OpenEntryQuery, updateFails: bool)

  /** The three form fields the handlers read and reset. */
  datatype Form = Form(selectedEmployee: string, selectedTerminal: string, notes: string)

  const EmptyForm := Form("", "", "")

  const NoSelectionText := "Please select an employee"
  const NotFoundText := "Employee not found"
  const FailedText := "Failed to record time entry"

  /** `xs.find(x => idOf(x) === id)`: the first element with that id. */
  function Find<T(==)>(xs: seq<T>, idOf: T -> string, id: string): (r: Option<T>)
    ensures r.None? <==> forall k :: 0 <= k < |xs| ==> idOf(xs[k]) != id
    ensures r.Some? ==> exists k :: 0 <= k < |xs| && xs[k] == r.value && idOf(xs[k]) == id &&
                                    forall j :: 0 <= j < k ==> idOf(xs[j]) != id
  {
    if xs == [] then None
    else if idOf(xs[0]) == id then Some(xs[0])
    else
      var r := Find(xs[1..], idOf, id);
      assert forall k :: 1 <= k < |xs| ==> xs[1..][k - 1] == xs[k];
      if r.Some? then
        var k :| 0 <= k < |xs[1..]| && xs[1..][k] == r.value && idOf(xs[1..][k]) == id &&
                 forall j :: 0 <= j < k ==> idOf(xs[1..][j]) != id;
        assert xs[k + 1] == r.value;
        r
      else r
  }

  function FindEmployee(employees: seq<Employee>, id: string): Option<Employee> {
    Find(employees, (e: Employee) => e.id, id)
  }

  /** `terminals.find(t => t.id === selected)?.terminal_id`. */
  function TerminalCode(terminals: seq<Terminal>, selected: string): Option<string> {
    match Find(terminals, (t: Terminal) => t.id, selected)
    case Some(t) => Some(t.terminalId)
    case None => None
  }

  /** What a handler that returned normally did. */
  datatype Effect = Effect(message: Message, write: Option<DbWrite>, enqueued: Option<OfflineClockEntry>)

  /** A handler either throws or returns normally. */
  datatype Handled = Threw | Returned(effect: Effect)

  /** The queue record both offline paths build; `clockOut` distinguishes them. */
  function QueuedEntry(employee: Employee, terminals: seq<Terminal>, form: Form, timestamp: string,
                       clockOut: Option<string>): OfflineClockEntry {
    OfflineClockEntry(employee.employeeId, TerminalCode(terminals, form.selectedTerminal), timestamp,
                      clockOut, NonEmpty(form.notes), timestamp)
  }

  /** `handleClockIn`. */
  function ClockIn(employee: Employee, terminals: seq<Terminal>, form: Form, timestamp: string, env: Env): Handled {
    if env.online then
      if env.insertFails then Threw
      else Returned(Effect(Message(Success, employee.firstName + " clocked in successfully"),
                           Some(InsertClockIn(employee.id, NonEmpty(form.selectedTerminal), timestamp, NonEmpty(form.notes))),
                           None))
    else
      Returned(Effect(Message(Success, employee.firstName + " clocked in (offline)"), None,
                      Some(QueuedEntry(employee, terminals, form, timestamp, None))))
  }

  /** `handleClockOut`: the open-entry query runs first, whatever the
      connection state; only its answer decides whether the offline fallback
      is taken. */
  function ClockOut(employee: Employee, terminals: seq<Terminal>, form: Form, timestamp: string, env: Env): Handled {
    match env.openEntry
    case QueryError => Threw
    case NoOpenEntry =>
      if env.online then
        Returned(Effect(Message(Error, employee.firstName + " is not currently clocked in"), None, None))
      else
        Returned(Effect(Message(Success, employee.firstName + " clocked out (offline)"), None,
                        Some(QueuedEntry(employee, terminals, form, timestamp, Some(timestamp)))))
    case OpenEntry(id) =>
      if env.updateFails then Threw
      else Returned(Effect(Message(Success, employee.firstName + " clocked out successfully"),
                           Some(UpdateClockOut(id, timestamp, NonEmpty(form.notes))), None))
  }

  /** How `handleClockAction` ends: before the work starts (no selection), at
      the employee lookup, in the `catch`, or after the form reset. */
  datatype Outcome = NoSelection | NotFound | Failed | Done(effect: Effect)

  function Decide(employees: seq<Employee>, terminals: seq<Terminal>, form: Form, action: ClockAction,
                  timestamp: string, env: Env): (o: Outcome)
    ensures o.NoSelection? <==> form.selectedEmployee == ""
    ensures o.NotFound? <==> form.selectedEmployee != "" && FindEmployee(employees, form.selectedEmployee).None?
    ensures o.Done? ==> FindEmployee(employees, form.selectedEmployee).Some?
    ensures o.Done? ==> o.effect.write.None? || o.effect.enqueued.None?
    ensures o.Done? && o.effect.enqueued.Some? ==> !env.online
  {
    if form.selectedEmployee == "" then NoSelection
    else match FindEmployee(employees, form.selectedEmployee)
      case None => NotFound
      case Some(employee) =>
        var h := if action == In then ClockIn(employee, terminals, form, timestamp, env)
                 else ClockOut(employee, terminals, form, timestamp, env);
        if h.Threw? then Failed else Done(h.effect)
  }

  /** With no employee selected, or one that is not in the loaded list, the
      action writes nothing, queues nothing and ends with an error message. */
  lemma NothingRecordedWithoutEmployee(employees: seq<Employee>, terminals: seq<Terminal>, form: Form,
                                       action: ClockAction, timestamp: string, env: Env)
    requires form.selectedEmployee == "" ||
             forall k :: 0 <= k < |employees| ==> employees[k].id != form.selectedEmployee
    ensures !Decide(employees, terminals, form, action, timestamp, env).Done?
    ensures !Decide(employees, terminals, form, action, timestamp, env).Failed?
  {
  }

  /** Clock-in online writes the canonical employee UUID, the selected
      terminal UUID or null, and the notes or null; the queue is untouched. */
  lemma OnlineClockIn(employees: seq<Employee>, terminals: seq<Terminal>, form: Form, timestamp: string, env: Env,
                      employee: Employee)
    requires FindEmployee(employees, form.selectedEmployee) == Some(employee) && form.selectedEmployee != ""
    requires env.online
    ensures var o := Decide(employees, terminals, form, In, timestamp, env);
      (env.insertFails ==> o == Failed) &&
      (!env.insertFails ==>
         (o.Done? && o.effect.enqueued.None? &&
          o.effect.write == Some(InsertClockIn(employee.id, NonEmpty(form.selectedTerminal), timestamp, NonEmpty(form.notes)))))
  {
  }

  /** Clock-in offline queues one event with the human-facing employee and
      terminal codes and `clock_in = offline_timestamp =` the timestamp, and
      writes nothing to the database. */
  lemma OfflineClockIn(employees: seq<Employee>, terminals: seq<Terminal>, form: Form, timestamp: string, env: Env,
                       employee: Employee)
    requires FindEmployee(employees, form.selectedEmployee) == Some(employee) && form.selectedEmployee != ""
    requires !env.online
    ensures var o := Decide(employees, terminals, form, In, timestamp, env);
      o.Done? && o.effect.write.None? && o.effect.enqueued.Some? &&
      var e := o.effect.enqueued.value;
      e.employeeId == employee.employeeId && e.terminalId == TerminalCode(terminals, form.selectedTerminal) &&
      e.clockIn == timestamp && e.offlineTimestamp == timestamp && e.clockOut.None?
  {
  }

  /** Clock-out with an open entry sets that entry's `clock_out`, online or
      not, and queues nothing; a failed update is a failure. */
  lemma ClockOutOfOpenEntry(employees: seq<Employee>, terminals: seq<Terminal>, form: Form, timestamp: string, env: Env,
                            employee: Employee, id: nat)
    requires FindEmployee(employees, form.selectedEmployee) == Some(employee) && form.selectedEmployee != ""
    requires env.openEntry == OpenEntry(id)
    ensures var o := Decide(employees, terminals, form, Out, timestamp, env);
      (env.updateFails ==> o == Failed) &&
      (!env.updateFails ==>
         (o.Done? && o.effect.enqueued.None? &&
          o.effect.write == Some(UpdateClockOut(id, timestamp, NonEmpty(form.notes)))))
  {
  }

  /** Clock-out with no open entry: online it records nothing and reports an
      error (the form is still reset); offline it queues one event with
      `clock_in = clock_out =` the timestamp. */
  lemma ClockOutWithoutOpenEntry(employees: seq<Employee>, terminals: seq<Terminal>, form: Form, timestamp: string,
                                 env: Env, employee: Employee)
    requires FindEmployee(employees, form.selectedEmployee) == Some(employee) && form.selectedEmployee != ""
    requires env.openEntry == NoOpenEntry
    ensures var o := Decide(employees, terminals, form, Out, timestamp, env);
      o.Done? && o.effect.write.None? &&
      (env.online ==> o.effect.enqueued.None? && o.effect.message.kind == Error) &&
      (!env.online ==>
         (o.effect.enqueued.Some? && o.effect.message.kind == Success &&
          o.effect.enqueued.value.employeeId == employee.employeeId &&
          o.effect.enqueued.value.clockIn == timestamp && o.effect.enqueued.value.clockOut == Some(timestamp)))
  {
  }

  /** A failing open-entry query is a failure even offline: the offline
      clock-out fallback is reached only when the query itself succeeds. */
  lemma QueryErrorFails(employees: seq<Employee>, terminals: seq<Terminal>, form: Form, timestamp: string, env: Env)
    requires FindEmployee(employees, form.selectedEmployee).Some? && form.selectedEmployee != ""
    requires env.openEntry == QueryError
    ensures Decide(employees, terminals, form, Out, timestamp, env) == Failed
  {
  }

  /** What `syncOfflineEntries` sees of the `fetch('/api/sync')` call: it
      throws, or answers with `response.ok` and, when the body is JSON, the
      text that `${result.synced}` renders to. */
  datatype SyncReply = FetchThrew | Replied(ok: bool, syncedText: Option<string>)

  /** The replay decision: whether the queue is posted and whether it is
      then cleared. */
  datatype SyncPlan = SyncPlan(posts: bool, clears: bool)

  function PlanSync(queue: seq<OfflineClockEntry>, reply: SyncReply): (p: SyncPlan)
    ensures p.clears ==> p.posts
    ensures p.posts <==> queue != []
    ensures p.clears <==> queue != [] && reply.Replied? && reply.ok && reply.syncedText.Some?
  {
    if queue == [] then SyncPlan(false, false)
    else SyncPlan(true, reply.Replied? && reply.ok && reply.syncedText.Some?)
  }

  class ClockPad {
    const employees: seq<Employee>
    const terminals: seq<Terminal>
    var selectedEmployee: string
    var selectedTerminal: string
    var notes: string
    var loading: bool
    var message: Option<Message>
    const storage: LocalQueue.OfflineStorage

    constructor (employees: seq<Employee>, terminals: seq<Terminal>, storage: LocalQueue.OfflineStorage)
      ensures this.employees == employees && this.terminals == terminals && this.storage == storage
      ensures GetForm() == EmptyForm && !loading && message.None?
    {
      this.employees := employees;
      this.terminals := terminals;
      this.storage := storage;
      selectedEmployee, selectedTerminal, notes := "", "", "";
      loading := false;
      message := None;
    }

    function GetForm(): Form
      reads this
    {
      Form(selectedEmployee, selectedTerminal, notes)
    }

    /** `handleClockAction(action)`; `timestamp` is `formatDateTime(new Date())`
        and `writeOk` whether the queue's `localStorage.setItem` succeeds. */
    method HandleClockAction(action: ClockAction, timestamp: string, env: Env, writeOk: bool)
      returns (write: Option<DbWrite>)
      modifies this, storage
      ensures var o := Decide(employees, terminals, old(GetForm()), action, timestamp, env);
        (o.NoSelection? ==> message == Some(Message(Error, NoSelectionText)) && loading == old(loading)) &&
        (o.NotFound? ==> message == Some(Message(Error, NotFoundText)) && !loading) &&
        (o.Failed? ==> message == Some(Message(Error, FailedText)) && !loading) &&
        (o.Done? ==> message == Some(o.effect.message) && !loading) &&
        (GetForm() == if o.Done? then EmptyForm else old(GetForm())) &&
        write == (if o.Done? then o.effect.write else None) &&
        storage.GetEntries() == old(storage.GetEntries()) +
          (if o.Done? && o.effect.enqueued.Some? && storage.hasWindow && writeOk then [o.effect.enqueued.value] else []) &&
        (!(o.Done? && o.effect.enqueued.Some? && storage.hasWindow && writeOk) ==> storage.slot == old(storage.slot))
    {
      ghost var o := Decide(employees, terminals, GetForm(), action, timestamp, env);
      write := None;
      if selectedEmployee == "" {
        message := Some(Message(Error, NoSelectionText));
        return;
      }
      loading := true;
      message := None;
      var employee := FindEmployee(employees, selectedEmployee);
      if employee.None? {
        message := Some(Message(Error, NotFoundText));
        loading := false;
        return;
      }
      var h := if action == In then ClockIn(employee.value, terminals, GetForm(), timestamp, env)
               else ClockOut(employee.value, terminals, GetForm(), timestamp, env);
      assert o == if h.Threw? then Failed else Done(h.effect);
      if h.Threw? {
        message := Some(Message(Error, FailedText));
        loading := false;
        return;
      }
      Finish(h.effect, writeOk);
      write := h.effect.write;
    }

    /** The end of a handler that returned normally: queue the event it
        built, if any, show its message, reset the form and stop loading. */
    method Finish(effect: Effect, writeOk: bool)
      modifies this, storage
      ensures message == Some(effect.message) && !loading && GetForm() == EmptyForm
      ensures storage.GetEntries() == old(storage.GetEntries()) +
        (if effect.enqueued.Some? && storage.hasWindow && writeOk then [effect.enqueued.value] else [])
      ensures !(effect.enqueued.Some? && storage.hasWindow && writeOk) ==> storage.slot == old(storage.slot)
    {
      if effect.enqueued.Some? {
        storage.AddEntry(effect.enqueued.value, writeOk);
      }
      message := Some(effect.message);
      selectedEmployee, selectedTerminal, notes := "", "", "";
      loading := false;
    }

    /** `syncOfflineEntries`: POST the whole queue; on an OK reply whose body
        parses, clear all of it, whatever the per-entry results were. A reply
        that is not OK, a body that is not JSON or a thrown `fetch` leaves the
        queue and the message as they were. Returns the posted batch. */
    method SyncOfflineEntries(reply: SyncReply) returns (posted: Option<seq<OfflineClockEntry>>)
      modifies this, storage
      ensures var p := PlanSync(old(storage.GetEntries()), reply);
        posted == (if p.posts then Some(old(storage.GetEntries())) else None) &&
        (p.clears ==> storage.GetEntries() == [] && (storage.hasWindow ==> storage.slot == LocalQueue.Absent) &&
                      message == Some(Message(Success, "Synced " + reply.syncedText.value + " offline entries"))) &&
        (!p.clears ==> storage.slot == old(storage.slot) && message == old(message))
      ensures GetForm() == old(GetForm()) && loading == old(loading)
    {
      var entries := storage.GetEntries();
      if |entries| == 0 {
        return None;
      }
      posted := Some(entries);
      if reply.Replied? && reply.ok && reply.syncedText.Some? {
        storage.ClearEntries();
        message := Some(Message(Success, "Synced " + reply.syncedText.value + " offline entries"));
      }
    }

    /** The `online` listener: replay only when something is queued. */
    method HandleOnline(reply: SyncReply) returns (posted: Option<seq<OfflineClockEntry>>)
      modifies this, storage
      ensures old(storage.GetEntries()) == [] ==> posted.None? && storage.slot == old(storage.slot) && message == old(message)
      ensures old(storage.GetEntries()) != [] ==> posted == Some(old(storage.GetEntries()))
      ensures var p := PlanSync(old(storage.GetEntries()), reply);
        (p.clears ==> storage.GetEntries() == [] &&
                      message == Some(Message(Success, "Synced " + reply.syncedText.value + " offline entries"))) &&
        (!p.clears ==> storage.slot == old(storage.slot) && message == old(message))
      ensures GetForm() == old(GetForm()) && loading == old(loading)
    {
      posted := None;
      if storage.GetCount() > 0 {
        posted := SyncOfflineEntries(reply);
      }
    }
  }
}
