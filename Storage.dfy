/** The device's key-value store, reduced to what the screens use: each key
    holds one whole list, `getItem` reads it (or finds nothing) and `setItem`
    overwrites it. The JSON text in between is not modelled: a stored list is
    kept as the list itself. */
module Storage {
  import opened Optional
  import opened Records

  const TasksKey: string := "@agenda_tasks"
  const HabitsKey: string := "@habits"
  const EntriesKey: string := "@journal_entries"

  /** What one key holds: a whole list of one record kind. */
  datatype Blob =
    | TaskList(tasks: seq<Task>)
    | HabitList(habits: seq<Habit>)
    | EntryList(entries: seq<JournalEntry>)

  /** The kind of list each screen's key is meant to hold. */
  predicate Fits(key: string, b: Blob) {
    && (key == TasksKey ==> b.TaskList?)
    && (key == HabitsKey ==> b.HabitList?)
    && (key == EntriesKey ==> b.EntryList?)
  }

  class Store {
    var items: map<string, Blob>

    /** An empty store: nothing saved yet on the device. */
    constructor ()
      ensures items == map[]
      ensures WellTyped()
    {
      items := map[];
    }

    /** Each screen's key holds that screen's kind of list. Every write the
        screens make keeps this, so each loader reads back its own kind. */
    ghost predicate WellTyped()
      reads this
    {
      && (TasksKey in items ==> items[TasksKey].TaskList?)
      && (HabitsKey in items ==> items[HabitsKey].HabitList?)
      && (EntriesKey in items ==> items[EntriesKey].EntryList?)
    }

    /** `AsyncStorage.getItem`: the saved value, or nothing for an absent key. */
    method GetItem(key: string) returns (b: Option<Blob>)
      ensures b.Some? <==> key in items
      ensures b.Some? ==> b.value == items[key]
    {
      b := if key in items then Some(items[key]) else None;
    }

    /** `AsyncStorage.setItem`: overwrites the key with the whole list; every
        other key keeps its value. Writing a screen's own kind of list under
        its key keeps the store well typed. */
    method SetItem(key: string, b: Blob)
      modifies this
      ensures items == old(items)[key := b]
      ensures old(WellTyped()) && Fits(key, b) ==> WellTyped()
    {
      items := items[key := b];
    }
  }
}
