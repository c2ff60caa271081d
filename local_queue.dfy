/**
 * The browser-side queue of clock events (`OfflineStorage`, src/lib/utils.ts).
 * The queue is one JSON list kept under a single localStorage key; here the
 * key's content is a `Slot`, and whether the code runs in a browser at all
 * (`typeof window !== 'undefined'`) is the constant `hasWindow`.
 */
module LocalQueue {
  import opened Types

  const StorageKey := "offline_clock_entries"

  /** What `localStorage.getItem(StorageKey)` yields: nothing (or the falsy
      ""), a list that parses, or text that `JSON.parse` rejects. */
  datatype Slot = Absent | Stored(entries: seq<OfflineClockEntry>) | Unparsable

  class OfflineStorage {
    const hasWindow: bool
    var slot: Slot

    constructor (hasWindow: bool, initial: Slot)
      ensures this.hasWindow == hasWindow && slot == initial
    {
      this.hasWindow := hasWindow;
      slot := initial;
    }

    /** `getEntries`: the stored list; outside a browser, with nothing stored,
        or with unparsable data it is the empty list rather than an error. */
    function GetEntries(): (r: seq<OfflineClockEntry>)
      reads this
      ensures !hasWindow ==> r == []
      ensures slot == Absent || slot == Unparsable ==> r == []
      ensures hasWindow && slot.Stored? ==> r == slot.entries
    {
      if !hasWindow then []
      else match slot
        case Stored(entries) => entries
        case _ => []
    }

    /** `getCount`: the number of pending events. */
    function GetCount(): (n: nat)
      reads this
      ensures n == |GetEntries()|
      ensures n == 0 <==> GetEntries() == []
    {
      |GetEntries()|
    }

    /** `addEntry`: read the list, append, write it back. `writeOk` is whether
        `localStorage.setItem` succeeds; its failure is swallowed, leaving the
        stored data exactly as it was. Unparsable data is replaced by `[entry]`. */
    method AddEntry(entry: OfflineClockEntry, writeOk: bool)
      modifies this
      ensures hasWindow && writeOk ==> slot == Stored(old(GetEntries()) + [entry])
      ensures !(hasWindow && writeOk) ==> slot == old(slot)
      ensures GetEntries() == if hasWindow && writeOk then old(GetEntries()) + [entry] else old(GetEntries())
      ensures GetCount() == old(GetCount()) + if hasWindow && writeOk then 1 else 0
    {
      if !hasWindow {
        return;
      }
      var entries := GetEntries();
      entries := entries + [entry];
      if writeOk {
        slot := Stored(entries);
      }
    }

    /** `clearEntries`: remove the key. */
    method ClearEntries()
      modifies this
      ensures hasWindow ==> slot == Absent
      ensures !hasWindow ==> slot == old(slot)
      ensures GetEntries() == [] && GetCount() == 0
    {
      if !hasWindow {
        return;
      }
      slot := Absent;
    }
  }
}
