/** The Habit Tracker screen (app/habitTracker.tsx): habits are added at the
    front of the list and deleted after a confirmation; both save the exact new
    list under `@habits`. The list is reloaded each time the screen gains
    focus. */
module HabitTracker {
  import opened Text
  import opened ListOps
  import opened Records
  import opened Storage

  /** `habits.filter(h => h.id !== id)` in the confirmed branch of
      `deleteHabit`. */
  function WithoutHabit(habits: seq<Habit>, id: string): (r: seq<Habit>)
    ensures forall i :: 0 <= i < |r| ==> r[i].id != id && r[i] in habits
    ensures forall i :: 0 <= i < |habits| && habits[i].id != id ==> habits[i] in r
  {
    Filter(habits, (h: Habit) => h.id != id)
  }

  /** Deleting keeps the survivors in order, an absent id deletes nothing,
      and a habit added and then deleted by its own (fresh) id is gone again. */
  lemma DeleteHabitLaws(front: seq<Habit>, back: seq<Habit>, id: string, name: string)
    ensures WithoutHabit(front + back, id) == WithoutHabit(front, id) + WithoutHabit(back, id)
    ensures (forall i :: 0 <= i < |front| ==> front[i].id != id) ==> WithoutHabit(front, id) == front
    ensures (forall i :: 0 <= i < |front| ==> front[i].id != id) ==>
      WithoutHabit([Habit(id, name)] + front, id) == front
  {
    var keep := (h: Habit) => h.id != id;
    FilterAppend(front, back, keep);
    FilterAppend([Habit(id, name)], front, keep);
    if forall i :: 0 <= i < |front| ==> front[i].id != id {
      FilterKeepsAll(front, keep);
    }
  }

  /** The Habit Tracker's state: the text field, the list, and the store. */
  class HabitScreen {
    var habit: string
    var habits: seq<Habit>
    const store: Store

    /** The screen before its focus effect runs. */
    constructor (store: Store)
      ensures this.store == store
      ensures habit == "" && habits == []
    {
      this.store := store;
      habit := "";
      habits := [];
    }

    /** The stored list under `@habits` is the list on screen. */
    ghost predicate Synced()
      reads this, store
    {
      HabitsKey in store.items && store.items[HabitsKey] == HabitList(habits)
    }

    /** `loadHabits` on focus: a stored value replaces `habits`; without one
        `habits` keeps its previous value. (The stored text is always the
        JSON of an array, never the empty string, so "truthy" is "present".) */
    method LoadHabits()
      requires store.WellTyped()
      modifies this`habits
      ensures HabitsKey in store.items ==> Synced()
      ensures HabitsKey !in store.items ==> habits == old(habits)
    {
      var json := store.GetItem(HabitsKey);
      if json.Some? {
        habits := json.value.habits;
      }
    }

    /** `saveHabits(newHabits)`: the given list overwrites `@habits`. */
    method SaveHabits(newHabits: seq<Habit>)
      requires store.WellTyped()
      modifies store
      ensures store.items == old(store.items)[HabitsKey := HabitList(newHabits)]
      ensures store.WellTyped()
    {
      store.SetItem(HabitsKey, HabitList(newHabits));
    }

    /** Typing into the habit field. */
    method SetHabit(text: string)
      modifies this`habit
      ensures habit == text
    {
      habit := text;
    }

    /** `addHabit`: blank input is ignored; otherwise a habit with the trimmed
        name goes in front of the old ones, that same list is saved, and the
        field is cleared. */
    method AddHabit(id: string)
      requires store.WellTyped()
      modifies this, store
      ensures store.WellTyped()
      ensures Trim(old(habit)) == "" ==>
        habit == old(habit) && habits == old(habits) && store.items == old(store.items)
      ensures Trim(old(habit)) != "" ==>
        habits == [Habit(id, Trim(old(habit)))] + old(habits)
        && Synced() && store.items == old(store.items)[HabitsKey := HabitList(habits)]
        && habit == ""
    {
      if Trim(habit) == "" {
        return;
      }
      var newHabit := Habit(id, Trim(habit));
      var updated := [newHabit] + habits;
      habits := updated;
      SaveHabits(updated);
      habit := "";
    }

    /** `deleteHabit`, with the alert's answer as `confirmed`: "Delete" drops
        the habits with this id and saves exactly that list; "Cancel" changes
        nothing. */
    method DeleteHabit(id: string, confirmed: bool)
      requires store.WellTyped()
      modifies this`habits, store
      ensures store.WellTyped()
      ensures !confirmed ==> habits == old(habits) && store.items == old(store.items)
      ensures confirmed ==>
        habits == WithoutHabit(old(habits), id) && Synced()
        && store.items == old(store.items)[HabitsKey := HabitList(habits)]
    {
      if confirmed {
        var updated := WithoutHabit(habits, id);
        habits := updated;
        SaveHabits(updated);
      }
    }
  }

  /** Focusing the screen over a store where an earlier Habit Tracker saved
      its list shows exactly that list again. */
  method Refocus(previous: HabitScreen) returns (screen: HabitScreen)
    requires previous.Synced() && previous.store.WellTyped()
    ensures fresh(screen) && screen.store == previous.store
    ensures screen.habits == previous.habits
  {
    screen := new HabitScreen(previous.store);
    screen.LoadHabits();
  }
}
