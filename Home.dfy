/** The Home screen (app/index.tsx): a dashboard over the tasks and habits the
    other screens saved, with today's progress, a short preview of today's
    tasks, and an editable user name. */
module Home {
  import opened Optional
  import opened Text
  import opened ListOps
  import opened Records
  import opened Storage
  import Agenda

  /** The tasks dated `today`, in stored order
      (`tasks.filter(task => task.date === today)`). */
  function TodayTasks(tasks: seq<Task>, today: string): (r: seq<Task>)
    ensures forall i :: 0 <= i < |r| ==> r[i].date == today && r[i] in tasks
    ensures forall i :: 0 <= i < |tasks| && tasks[i].date == today ==> tasks[i] in r
  {
    Filter(tasks, (t: Task) => t.date == today)
  }

  /** The tasks dated `today` that are done. */
  function DoneToday(tasks: seq<Task>, today: string): (r: seq<Task>)
    ensures forall i :: 0 <= i < |r| ==> r[i].date == today && r[i].completed && r[i] in tasks
    ensures forall i :: 0 <= i < |tasks| && tasks[i].date == today && tasks[i].completed ==> tasks[i] in r
  {
    Filter(tasks, (t: Task) => t.date == today && t.completed)
  }

  /** `todaysTasks`: how many of today's tasks are done, out of how many. */
  datatype TaskCount = TaskCount(completed: nat, total: nat)

  function TodaysTasks(tasks: seq<Task>, today: string): (c: TaskCount)
    ensures c.completed <= c.total <= |tasks|
  {
    FilterStronger(tasks, (t: Task) => t.date == today && t.completed, (t: Task) => t.date == today);
    TaskCount(|DoneToday(tasks, today)|, |TodayTasks(tasks, today)|)
  }

  /** Appending a task raises the total by one exactly when it is dated today,
      and the done count by one exactly when it is also completed. */
  lemma TodaysTasksAppend(tasks: seq<Task>, t: Task, today: string)
    ensures TodaysTasks(tasks + [t], today).total
         == TodaysTasks(tasks, today).total + (if t.date == today then 1 else 0)
    ensures TodaysTasks(tasks + [t], today).completed
         == TodaysTasks(tasks, today).completed + (if t.date == today && t.completed then 1 else 0)
  {
    FilterAppend(tasks, [t], (t: Task) => t.date == today);
    FilterAppend(tasks, [t], (t: Task) => t.date == today && t.completed);
  }

  /** A task added on the Agenda screen with no date counts for today and,
      being new, never raises today's done count. */
  lemma AddedTaskCountsForToday(tasks: seq<Task>, form: Agenda.TaskForm, id: string, today: string)
    requires form.date == ""
    ensures TodaysTasks(tasks + [Agenda.NewTask(form, id, today)], today)
         == TaskCount(TodaysTasks(tasks, today).completed, TodaysTasks(tasks, today).total + 1)
  {
    TodaysTasksAppend(tasks, Agenda.NewTask(form, id, today), today);
  }

  /** Ticking tasks off on the Agenda screen never changes how many tasks
      there are for today. */
  lemma {:induction false} ToggleKeepsTodaysTotal(tasks: seq<Task>, id: string, today: string)
    ensures TodaysTasks(Agenda.ToggleCompletion(tasks, id), today).total == TodaysTasks(tasks, today).total
  {
    if tasks != [] {
      var toggled := Agenda.ToggleCompletion(tasks, id);
      assert toggled == [toggled[0]] + Agenda.ToggleCompletion(tasks[1..], id);
      assert tasks == [tasks[0]] + tasks[1..];
      assert toggled[0].date == tasks[0].date;
      ToggleKeepsTodaysTotal(tasks[1..], id, today);
      FilterAppend([toggled[0]], Agenda.ToggleCompletion(tasks[1..], id), (t: Task) => t.date == today);
      FilterAppend([tasks[0]], tasks[1..], (t: Task) => t.date == today);
    }
  }

  /** `completionPercentage`: 0 when there are no tasks today, otherwise
      100 * completed / total rounded to the nearest integer, halves up. */
  function CompletionPercentage(completed: nat, total: nat): (r: int)
    ensures total == 0 ==> r == 0
    ensures total > 0 ==> 2 * total * r <= 200 * completed + total < 2 * total * (r + 1)
    ensures completed <= total ==> 0 <= r <= 100
  {
    if total > 0 then
      RoundedPercentBounds(completed, total);
      (200 * completed + total) / (2 * total)
    else 0
  }

  lemma RoundedPercentBounds(completed: nat, total: nat)
    requires total > 0
    ensures var q := (200 * completed + total) / (2 * total);
      && 2 * total * q <= 200 * completed + total < 2 * total * (q + 1)
      && (completed <= total ==> 0 <= q <= 100)
  {
    var n, d := 200 * completed + total, 2 * total;
    var q, m := n / d, n % d;
    assert n == d * q + m && 0 <= m < d;
    assert d * (q + 1) == d * q + d;
    if completed <= total {
      assert n < d * 101;
      MulCancel(d, q, 101);
      if q < 0 {
        MulMonotone(d, q, -1);
      }
    }
  }

  /** The figures the dashboard promises: no tasks gives 0 and 3 of 7
      gives 43. */
  lemma PercentageExamples()
    ensures CompletionPercentage(0, 0) == 0
    ensures CompletionPercentage(3, 7) == 43
  {
  }

  /** All of today's tasks done shows 100; none done shows 0. */
  lemma PercentageAllOrNone(total: nat)
    requires total > 0
    ensures CompletionPercentage(total, total) == 100
    ensures CompletionPercentage(0, total) == 0
  {
    var all := CompletionPercentage(total, total);
    assert 2 * total * 100 < 2 * total * (all + 1);
    MulCancel(2 * total, 100, all + 1);
    var none := CompletionPercentage(0, total);
    assert 2 * total * none < 2 * total * 1;
    MulCancel(2 * total, none, 1);
  }

  /** More done tasks never show a smaller percentage. */
  lemma PercentageMonotone(c1: nat, c2: nat, total: nat)
    requires c1 <= c2
    ensures CompletionPercentage(c1, total) <= CompletionPercentage(c2, total)
  {
    if total > 0 {
      var r1, r2 := CompletionPercentage(c1, total), CompletionPercentage(c2, total);
      assert 2 * total * r1 <= 200 * c1 + total <= 200 * c2 + total < 2 * total * (r2 + 1);
      MulCancel(2 * total, r1, r2 + 1);
    }
  }

  lemma MulCancel(k: int, a: int, b: int)
    requires k > 0 && k * a < k * b
    ensures a < b
  {
    if a >= b {
      MulMonotone(k, b, a);
    }
  }

  lemma MulMonotone(k: int, a: int, b: int)
    requires k > 0 && a <= b
    ensures k * a <= k * b
  {
    assert k * b - k * a == k * (b - a);
  }

  /** `ProgressBar`'s limit: the bar's value always lies in [0, 100] and is
      the input itself when that is already in range. */
  function ClampProgress(progress: int): (r: int)
    ensures 0 <= r <= 100
    ensures 0 <= progress <= 100 ==> r == progress
    ensures progress > 100 ==> r == 100
    ensures progress < 0 ==> r == 0
  {
    var limited := if progress > 100 then 100 else progress;
    if limited < 0 then 0 else limited
  }

  /** The percentage the Home screen hands the bar is never clamped. */
  lemma ClampLeavesPercentage(tasks: seq<Task>, today: string)
    ensures var c := TodaysTasks(tasks, today);
      ClampProgress(CompletionPercentage(c.completed, c.total)) == CompletionPercentage(c.completed, c.total)
  {
  }

  const PreviewLimit: nat := 3

  /** The preview list: the first (at most three) of today's tasks. */
  function Preview(tasks: seq<Task>, today: string): (r: seq<Task>)
    ensures |r| <= PreviewLimit
    ensures r <= TodayTasks(tasks, today)
    ensures |r| == PreviewLimit || r == TodayTasks(tasks, today)
  {
    var todays := TodayTasks(tasks, today);
    if |todays| <= PreviewLimit then todays else todays[..PreviewLimit]
  }

  /** The "+N more..." line: shown only when today has more tasks than the
      preview holds, with N the number left out. */
  function MoreCount(tasks: seq<Task>, today: string): (more: Option<nat>)
    ensures more.Some? <==> |Preview(tasks, today)| < |TodayTasks(tasks, today)|
    ensures more.Some? ==> more.value > 0
    ensures more.Some? ==> |Preview(tasks, today)| + more.value == |TodayTasks(tasks, today)|
  {
    var n := |TodayTasks(tasks, today)|;
    if n > PreviewLimit then Some(n - PreviewLimit) else None
  }

  /** Preview and "+N more" together account for every task of today, and the
      line appears exactly when the preview is cut short. */
  lemma PreviewAccountsForAll(tasks: seq<Task>, today: string)
    ensures var more := MoreCount(tasks, today);
      |Preview(tasks, today)| + (if more.Some? then more.value else 0) == TodaysTasks(tasks, today).total
    ensures MoreCount(tasks, today).Some? <==> TodaysTasks(tasks, today).total > PreviewLimit
    ensures forall i :: 0 <= i < |Preview(tasks, today)| ==>
      Preview(tasks, today)[i].date == today && Preview(tasks, today)[i] in tasks
  {
    var p, todays := Preview(tasks, today), TodayTasks(tasks, today);
    forall i | 0 <= i < |p| ensures p[i].date == today && p[i] in tasks {
      assert p[i] == todays[i];
    }
  }

  /** Five tasks all dated today: the first three are previewed and the line
      reads "+2 more...". */
  lemma PreviewOfFive(tasks: seq<Task>, today: string)
    requires |tasks| == 5
    requires forall i :: 0 <= i < |tasks| ==> tasks[i].date == today
    ensures Preview(tasks, today) == tasks[..3]
    ensures MoreCount(tasks, today) == Some(2)
  {
    FilterKeepsAll(tasks, (t: Task) => t.date == today);
  }

  /** The Home screen's state: the name editor and the lists it last loaded. */
  class HomeScreen {
    var userName: string
    var isEditingName: bool
    var tempName: string
    var tasks: seq<Task>
    var habits: seq<Habit>
    var loading: bool
    const store: Store

    /** The welcome name is never blank and carries no surrounding spaces. */
    ghost predicate Valid()
      reads this
    {
      userName != "" && !IsSpace(userName[0]) && !IsSpace(userName[|userName| - 1])
    }

    constructor (store: Store)
      ensures Valid() && this.store == store
      ensures userName == "User" && !isEditingName && tempName == ""
      ensures tasks == [] && habits == [] && loading
    {
      this.store := store;
      userName := "User";
      isEditingName := false;
      tempName := "";
      tasks := [];
      habits := [];
      loading := true;
    }

    /** `loadAllData`: saved tasks replace `tasks` and an absent key keeps
        them; saved habits replace `habits` and an absent key empties them.
        Loading then ends. */
    method LoadAllData()
      requires store.WellTyped()
      modifies this`tasks, this`habits, this`loading
      ensures TasksKey in store.items ==> tasks == store.items[TasksKey].tasks
      ensures TasksKey !in store.items ==> tasks == old(tasks)
      ensures HabitsKey in store.items ==> habits == store.items[HabitsKey].habits
      ensures HabitsKey !in store.items ==> habits == []
      ensures !loading
    {
      var savedTasks := store.GetItem(TasksKey);
      if savedTasks.Some? {
        tasks := savedTasks.value.tasks;
      }
      var savedHabits := store.GetItem(HabitsKey);
      if savedHabits.Some? {
        habits := savedHabits.value.habits;
      } else {
        habits := [];
      }
      loading := false;
    }

    /** `handleEditName`: the field starts from the current name. */
    method EditName()
      requires Valid()
      modifies this`tempName, this`isEditingName
      ensures Valid()
      ensures tempName == userName && isEditingName
    {
      tempName := userName;
      isEditingName := true;
    }

    /** Typing into the name field. */
    method SetTempName(text: string)
      requires Valid()
      modifies this`tempName
      ensures Valid() && tempName == text
    {
      tempName := text;
    }

    /** `handleSaveName`: a non-blank entry becomes the name, trimmed; a blank
        one leaves the name alone. Editing ends either way, and saving the
        name the editor started from (`handleEditName`) keeps it as it was. */
    method SaveName()
      requires Valid()
      modifies this`userName, this`isEditingName
      ensures Valid() && !isEditingName
      ensures Trim(tempName) == "" ==> userName == old(userName)
      ensures Trim(tempName) != "" ==> userName == Trim(tempName)
      ensures tempName == old(userName) ==> userName == old(userName)
    {
      if tempName == userName {
        TrimKeepsTrimmed(userName);
      }
      var trimmed := Trim(tempName);
      if trimmed != "" {
        userName := trimmed;
      }
      isEditingName := false;
    }

    /** `handleCancelEdit`: editing ends, the field is cleared, and the name
        stays what it was. */
    method CancelEdit()
      requires Valid()
      modifies this`tempName, this`isEditingName
      ensures Valid() && !isEditingName && tempName == ""
      ensures userName == old(userName)
    {
      isEditingName := false;
      tempName := "";
    }
  }
}
