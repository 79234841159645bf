/** The three kinds of record the screens keep in lists. Ids are the decimal
    text of a clock reading taken when the record is created; here they are
    whatever string the caller supplies. */
module Records {

  /** A task's priority; the task form only ever offers these three. */
  datatype Priority = High | Medium | Low

  /** The priority as the text the source stores and compares. */
  function PriorityName(p: Priority): string {
    match p
    case High => "high"
    case Medium => "medium"
    case Low => "low"
  }

  /** An agenda task (app/agenda.tsx and app/index.tsx share this shape). */
  datatype Task = Task(
    id: string,
    title: string,
    description: string,
    date: string,
    completed: bool,
    priority: Priority)

  /** A habit: only its name is kept, no progress. */
  datatype Habit = Habit(id: string, name: string)

  /** A journal entry; its title may be empty. */
  datatype JournalEntry = JournalEntry(id: string, title: string, content: string, date: string)
}
