/** The Journal screen (app/journal.tsx): entries added from a form and
    deleted by id, the whole list written under `@journal_entries` after each
    change. */
module Journal {
  import opened Text
  import opened ListOps
  import opened Records
  import opened Storage

  /** The add-entry form (`newEntry`). */
  datatype EntryForm = EntryForm(title: string, content: string, date: string)

  /** The form as it is opened and reset: empty text, today's date. */
  function FreshForm(today: string): EntryForm {
    EntryForm("", "", today)
  }

  /** `addEntry` accepts the form when the title or the content has something
      other than whitespace. */
  function Accepts(form: EntryForm): (ok: bool)
    ensures ok <==> !IsBlank(form.title) || !IsBlank(form.content)
  {
    TrimEmptyIffBlank(form.title);
    TrimEmptyIffBlank(form.content);
    Trim(form.title) != "" || Trim(form.content) != ""
  }

  /** The entry `addEntry` builds: title and content trimmed, and today's date
      when the date field was cleared. */
  function NewEntry(form: EntryForm, id: string, today: string): (e: JournalEntry)
    requires Accepts(form)
    ensures e.id == id
    ensures e.title == Trim(form.title) && e.content == Trim(form.content)
    ensures e.title != "" || e.content != ""
    ensures form.date != "" ==> e.date == form.date
    ensures form.date == "" ==> e.date == today
  {
    JournalEntry(id, Trim(form.title), Trim(form.content), if form.date != "" then form.date else today)
  }

  /** `entries.filter(entry => entry.id !== id)` in `deleteEntry`. */
  function WithoutEntry(entries: seq<JournalEntry>, id: string): (r: seq<JournalEntry>)
    ensures forall i :: 0 <= i < |r| ==> r[i].id != id && r[i] in entries
    ensures forall i :: 0 <= i < |entries| && entries[i].id != id ==> entries[i] in r
  {
    Filter(entries, (e: JournalEntry) => e.id != id)
  }

  /** Deleting keeps the survivors in order and an absent id deletes nothing. */
  lemma DeleteEntryLaws(front: seq<JournalEntry>, back: seq<JournalEntry>, id: string)
    ensures WithoutEntry(front + back, id) == WithoutEntry(front, id) + WithoutEntry(back, id)
    ensures (forall i :: 0 <= i < |front| ==> front[i].id != id) ==> WithoutEntry(front, id) == front
  {
    var keep := (e: JournalEntry) => e.id != id;
    FilterAppend(front, back, keep);
    if forall i :: 0 <= i < |front| ==> front[i].id != id {
      FilterKeepsAll(front, keep);
    }
  }

  /** The Journal screen's state over the device store. */
  class JournalScreen {
    var entries: seq<JournalEntry>
    var modalVisible: bool
    var newEntry: EntryForm
    const store: Store

    /** The screen before its load effect runs; the form's date starts at
        the day the screen is opened. */
    constructor (store: Store, today: string)
      ensures this.store == store
      ensures entries == [] && !modalVisible && newEntry == FreshForm(today)
    {
      this.store := store;
      entries := [];
      modalVisible := false;
      newEntry := FreshForm(today);
    }

    /** The stored list under `@journal_entries` is the list on screen. */
    ghost predicate Synced()
      reads this, store
    {
      EntriesKey in store.items && store.items[EntriesKey] == EntryList(entries)
    }

    /** `loadEntries`: the saved list replaces `entries` when the key is
        present; an absent key leaves `entries` as it was. */
    method LoadEntries()
      requires store.WellTyped()
      modifies this`entries
      ensures EntriesKey in store.items ==> Synced()
      ensures EntriesKey !in store.items ==> entries == old(entries)
    {
      var saved := store.GetItem(EntriesKey);
      if saved.Some? {
        entries := saved.value.entries;
      }
    }

    /** `saveEntries`: the whole list overwrites `@journal_entries`. */
    method SaveEntries()
      requires store.WellTyped()
      modifies store
      ensures store.items == old(store.items)[EntriesKey := EntryList(entries)]
      ensures Synced() && store.WellTyped()
    {
      store.SetItem(EntriesKey, EntryList(entries));
    }

    /** The "+ Add Entry" button. */
    method OpenModal()
      modifies this`modalVisible
      ensures modalVisible
    {
      modalVisible := true;
    }

    /** The modal's Cancel button and its close request. */
    method CloseModal()
      modifies this`modalVisible
      ensures !modalVisible
    {
      modalVisible := false;
    }

    /** Typing into the title, content or date field. */
    method EditForm(form: EntryForm)
      modifies this`newEntry
      ensures newEntry == form
    {
      newEntry := form;
    }

    /** `addEntry`: a form whose title and content are both blank changes
        nothing; otherwise one entry goes at the end, the form is reset to
        today, the modal closes and the new list is saved. */
    method AddEntry(id: string, today: string)
      requires store.WellTyped()
      modifies this, store
      ensures store.WellTyped()
      ensures !Accepts(old(newEntry)) ==>
        entries == old(entries) && newEntry == old(newEntry) && modalVisible == old(modalVisible)
        && store.items == old(store.items)
      ensures Accepts(old(newEntry)) ==>
        entries == old(entries) + [NewEntry(old(newEntry), id, today)]
        && newEntry == FreshForm(today) && !modalVisible
        && store.items == old(store.items)[EntriesKey := EntryList(entries)]
    {
      var form := newEntry;
      if Trim(form.title) != "" || Trim(form.content) != "" {
        var entry := NewEntry(form, id, today);
        entries := entries + [entry];
        newEntry := FreshForm(today);
        modalVisible := false;
        SaveEntries();
      }
    }

    /** `deleteEntry`: drops the entries with this id and saves. */
    method DeleteEntry(id: string)
      requires store.WellTyped()
      modifies this`entries, store
      ensures entries == WithoutEntry(old(entries), id)
      ensures store.items == old(store.items)[EntriesKey := EntryList(entries)]
      ensures Synced() && store.WellTyped()
    {
      entries := WithoutEntry(entries, id);
      SaveEntries();
    }
  }

  /** Opening the screen over a store where an earlier Journal screen saved
      its list shows exactly that list again. */
  method Reopen(previous: JournalScreen, today: string) returns (screen: JournalScreen)
    requires previous.Synced() && previous.store.WellTyped()
    ensures fresh(screen) && screen.store == previous.store
    ensures screen.entries == previous.entries
  {
    screen := new JournalScreen(previous.store, today);
    screen.LoadEntries();
  }
}
