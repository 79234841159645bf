/** The Agenda screen (app/agenda.tsx): a list of tasks that can be added from
    a form, ticked off and deleted. Every change to the list is written, whole,
    under the `@agenda_tasks` key. */
module Agenda {
  import opened Text
  import opened ListOps
  import opened Records
  import opened Storage

  /** The add-task form (`newTask`). */
  datatype TaskForm = TaskForm(title: string, description: string, date: string, priority: Priority)

  /** The form as the screen opens it and as a successful add leaves it. */
  const EmptyTaskForm: TaskForm := TaskForm("", "", "", Medium)

  /** The task `addTask` builds from the form: not completed, title kept as
      typed (untrimmed), and today's date when the date field is empty. */
  function NewTask(form: TaskForm, id: string, today: string): (t: Task)
    ensures t.id == id && !t.completed
    ensures t.title == form.title && t.description == form.description && t.priority == form.priority
    ensures form.date != "" ==> t.date == form.date
    ensures form.date == "" ==> t.date == today
  {
    Task(id, form.title, form.description, if form.date != "" then form.date else today, false, form.priority)
  }

  /** `tasks.map(...)` in `toggleTaskCompletion`: the tasks with this id have
      their `completed` flag flipped; nothing else changes. */
  function ToggleCompletion(tasks: seq<Task>, id: string): (r: seq<Task>)
    ensures |r| == |tasks|
    ensures forall i :: 0 <= i < |tasks| ==> r[i].(completed := tasks[i].completed) == tasks[i]
    ensures forall i :: 0 <= i < |tasks| ==> (r[i].completed != tasks[i].completed <==> tasks[i].id == id)
  {
    if tasks == [] then []
    else
      var t := tasks[0];
      [if t.id == id then t.(completed := !t.completed) else t] + ToggleCompletion(tasks[1..], id)
  }

  /** Toggling the same id twice gives back the original list. */
  lemma {:induction false} ToggleTwice(tasks: seq<Task>, id: string)
    ensures ToggleCompletion(ToggleCompletion(tasks, id), id) == tasks
  {
    var once := ToggleCompletion(tasks, id);
    var twice := ToggleCompletion(once, id);
    forall i | 0 <= i < |tasks| ensures twice[i] == tasks[i] {
      assert once[i].id == tasks[i].id;
    }
  }

  /** Toggling an id no task has is a no-op. */
  lemma {:induction false} ToggleAbsent(tasks: seq<Task>, id: string)
    requires forall i :: 0 <= i < |tasks| ==> tasks[i].id != id
    ensures ToggleCompletion(tasks, id) == tasks
  {
    var r := ToggleCompletion(tasks, id);
    forall i | 0 <= i < |tasks| ensures r[i] == tasks[i] {
      assert r[i].(completed := tasks[i].completed) == tasks[i];
    }
  }

  /** `tasks.filter(task => task.id !== id)` in `deleteTask`. */
  function WithoutTask(tasks: seq<Task>, id: string): (r: seq<Task>)
    ensures forall i :: 0 <= i < |r| ==> r[i].id != id && r[i] in tasks
    ensures forall i :: 0 <= i < |tasks| && tasks[i].id != id ==> tasks[i] in r
  {
    Filter(tasks, (t: Task) => t.id != id)
  }

  /** Deleting keeps the survivors in order, an absent id deletes nothing,
      and deleting twice is deleting once. */
  lemma DeleteTaskLaws(front: seq<Task>, back: seq<Task>, id: string)
    ensures WithoutTask(front + back, id) == WithoutTask(front, id) + WithoutTask(back, id)
    ensures (forall i :: 0 <= i < |front| ==> front[i].id != id) ==> WithoutTask(front, id) == front
    ensures WithoutTask(WithoutTask(front, id), id) == WithoutTask(front, id)
  {
    var keep := (t: Task) => t.id != id;
    FilterAppend(front, back, keep);
    if forall i :: 0 <= i < |front| ==> front[i].id != id {
      FilterKeepsAll(front, keep);
    }
    FilterIdempotent(front, keep);
  }

  const HighColor: string := "#3B5BA5"
  const MediumColor: string := "#7EC8E3"
  const LowColor: string := "#A8E6CF"

  /** `getPriorityColor`: a colour for every string; the three priorities get
      three different colours and anything else gets the medium one. */
  function PriorityColor(priority: string): (c: string)
    ensures c == HighColor <==> priority == "high"
    ensures c == LowColor <==> priority == "low"
    ensures c == MediumColor <==> priority != "high" && priority != "low"
  {
    match priority
    case "high" => HighColor
    case "medium" => MediumColor
    case "low" => LowColor
    case _ => MediumColor
  }

  /** The three priorities the form offers are told apart by colour. */
  lemma PriorityColorsDistinct(p: Priority, q: Priority)
    ensures PriorityColor(PriorityName(p)) == PriorityColor(PriorityName(q)) <==> p == q
  {
  }

  /** The Agenda screen's state: the task list, the form and the modal flag,
      over the device store it writes through to. */
  class AgendaScreen {
    var tasks: seq<Task>
    var modalVisible: bool
    var newTask: TaskForm
    const store: Store

    /** The screen before its load effect runs. */
    constructor (store: Store)
      ensures this.store == store
      ensures tasks == [] && !modalVisible && newTask == EmptyTaskForm
    {
      this.store := store;
      tasks := [];
      modalVisible := false;
      newTask := EmptyTaskForm;
    }

    /** The stored list under `@agenda_tasks` is the list on screen. */
    ghost predicate Synced()
      reads this, store
    {
      TasksKey in store.items && store.items[TasksKey] == TaskList(tasks)
    }

    /** `loadTasks`: the saved list replaces `tasks` when the key is present;
        an absent key leaves `tasks` as it was. */
    method LoadTasks()
      requires store.WellTyped()
      modifies this`tasks
      ensures TasksKey in store.items ==> Synced()
      ensures TasksKey !in store.items ==> tasks == old(tasks)
    {
      var saved := store.GetItem(TasksKey);
      if saved.Some? {
        tasks := saved.value.tasks;
      }
    }

    /** `saveTasks`: the whole current list overwrites `@agenda_tasks`. */
    method SaveTasks()
      requires store.WellTyped()
      modifies store
      ensures store.items == old(store.items)[TasksKey := TaskList(tasks)]
      ensures Synced() && store.WellTyped()
    {
      store.SetItem(TasksKey, TaskList(tasks));
    }

    /** The "+ Add Task" button. */
    method OpenModal()
      modifies this`modalVisible
      ensures modalVisible
    {
      modalVisible := true;
    }

    /** The modal's Cancel button and its close request. */
    method CloseModal()
      modifies this`modalVisible
      ensures !modalVisible
    {
      modalVisible := false;
    }

    /** Typing into the form, or picking a priority: the form is replaced. */
    method EditForm(form: TaskForm)
      modifies this`newTask
      ensures newTask == form
    {
      newTask := form;
    }

    /** `addTask`: a title that is blank after trimming changes nothing;
        otherwise one new task goes at the end, the form is reset, the modal
        closes, and the new list is saved. */
    method AddTask(id: string, today: string)
      requires store.WellTyped()
      modifies this, store
      ensures store.WellTyped()
      ensures Trim(old(newTask.title)) == "" ==>
        tasks == old(tasks) && newTask == old(newTask) && modalVisible == old(modalVisible)
        && store.items == old(store.items)
      ensures Trim(old(newTask.title)) != "" ==>
        tasks == old(tasks) + [NewTask(old(newTask), id, today)]
        && newTask == EmptyTaskForm && !modalVisible
        && store.items == old(store.items)[TasksKey := TaskList(tasks)]
    {
      if Trim(newTask.title) != "" {
        var task := NewTask(newTask, id, today);
        tasks := tasks + [task];
        newTask := EmptyTaskForm;
        modalVisible := false;
        SaveTasks();
      }
    }

    /** `toggleTaskCompletion`: flips the tasks with this id and saves. */
    method ToggleTaskCompletion(id: string)
      requires store.WellTyped()
      modifies this`tasks, store
      ensures tasks == ToggleCompletion(old(tasks), id)
      ensures store.items == old(store.items)[TasksKey := TaskList(tasks)]
      ensures Synced() && store.WellTyped()
    {
      tasks := ToggleCompletion(tasks, id);
      SaveTasks();
    }

    /** `deleteTask`: drops the tasks with this id and saves. */
    method DeleteTask(id: string)
      requires store.WellTyped()
      modifies this`tasks, store
      ensures tasks == WithoutTask(old(tasks), id)
      ensures store.items == old(store.items)[TasksKey := TaskList(tasks)]
      ensures Synced() && store.WellTyped()
    {
      tasks := WithoutTask(tasks, id);
      SaveTasks();
    }
  }

  /** Opening the screen over a store where an earlier Agenda screen saved
      its list shows exactly that list again. */
  method Reopen(previous: AgendaScreen) returns (screen: AgendaScreen)
    requires previous.Synced() && previous.store.WellTyped()
    ensures fresh(screen) && screen.store == previous.store
    ensures screen.tasks == previous.tasks
  {
    screen := new AgendaScreen(previous.store);
    screen.LoadTasks();
  }
}
