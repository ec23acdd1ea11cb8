/**
 * The four tables of the local database (`days`, `tasks`, `custom_todos`,
 * `todo_subtasks`): their row shapes, the enumerations their text columns are
 * restricted to, the column defaults applied on insert, and the cascade that
 * deleting a custom todo triggers on its subtasks.
 *
 * Calendar dates are day ordinals (`int`); nullable text columns are `Option<string>`.
 */
module Schema {

  datatype Option<+T> = None | Some(value: T)

  /** The `status` column of `days`. */
  datatype DayStatus = Locked | Active | Completed | Failed

  /** The `type` column of `tasks`, in the order the enumeration lists them. */
  datatype TaskType = WorkoutOutdoor | WorkoutIndoor | Water | Read | Diet | Pic | NoAlcohol

  /** Column default of `days.status`. */
  const DefaultDayStatus: DayStatus := Locked

  /** A row of `days`: `id` is the primary key (the day number), `date` is required. */
  datatype Day = Day(id: int, date: int, status: DayStatus, notes: Option<string>)

  /** A row of `tasks`: `dayId` is required and refers to `days.id`; `value` is optional. */
  datatype Task = Task(id: int, dayId: int, kind: TaskType, completed: bool, value: Option<string>)

  /** A row of `custom_todos`: `dayId` and `title` are required, `description` is optional. */
  datatype CustomTodo = CustomTodo(id: int, dayId: int, title: string, description: Option<string>, completed: bool)

  /** A row of `todo_subtasks`: `todoId` refers to `custom_todos.id` with ON DELETE CASCADE. */
  datatype Subtask = Subtask(id: int, todoId: int, content: string, completed: bool)

  // ---------------------------------------------------------------------------
  // Enumerations as stored text
  // ---------------------------------------------------------------------------

  function StatusText(s: DayStatus): string {
    match s
    case Locked => "locked"
    case Active => "active"
    case Completed => "completed"
    case Failed => "failed"
  }

  /** Reads a stored status; only the four enumeration texts are accepted. */
  function ParseStatus(text: string): (r: Option<DayStatus>)
    ensures r.Some? <==> text in {"locked", "active", "completed", "failed"}
    ensures r.Some? ==> StatusText(r.value) == text
  {
    if text == "locked" then Some(Locked)
    else if text == "active" then Some(Active)
    else if text == "completed" then Some(Completed)
    else if text == "failed" then Some(Failed)
    else None
  }

  function TypeText(t: TaskType): string {
    match t
    case WorkoutOutdoor => "workout_outdoor"
    case WorkoutIndoor => "workout_indoor"
    case Water => "water"
    case Read => "read"
    case Diet => "diet"
    case Pic => "pic"
    case NoAlcohol => "no_alcohol"
  }

  /** Reads a stored task type; only the seven enumeration texts are accepted. */
  function ParseType(text: string): (r: Option<TaskType>)
    ensures r.Some? <==> text in {"workout_outdoor", "workout_indoor", "water", "read", "diet", "pic", "no_alcohol"}
    ensures r.Some? ==> TypeText(r.value) == text
  {
    if text == "workout_outdoor" then Some(WorkoutOutdoor)
    else if text == "workout_indoor" then Some(WorkoutIndoor)
    else if text == "water" then Some(Water)
    else if text == "read" then Some(Read)
    else if text == "diet" then Some(Diet)
    else if text == "pic" then Some(Pic)
    else if text == "no_alcohol" then Some(NoAlcohol)
    else None
  }

  /** Every status is stored as text that reads back as that same status. */
  lemma StatusTextRoundTrip(s: DayStatus)
    ensures ParseStatus(StatusText(s)) == Some(s)
  {
  }

  /** Every task type is stored as text that reads back as that same type. */
  lemma TypeTextRoundTrip(t: TaskType)
    ensures ParseType(TypeText(t)) == Some(t)
  {
  }

  // ---------------------------------------------------------------------------
  // Inserts: omitted columns take their defaults
  // ---------------------------------------------------------------------------

  /** Inserting a day; an omitted status becomes `locked`, the notes start out null. */
  function InsertDay(id: int, date: int, status: Option<DayStatus>): (d: Day)
    ensures d.id == id && d.date == date && d.notes == None
    ensures status.None? ==> d.status == Locked
    ensures status.Some? ==> d.status == status.value
  {
    Day(id, date, match status case Some(s) => s case None => DefaultDayStatus, None)
  }

  /** Inserting a task with the id the table assigns; `completed` takes its default, false. */
  function InsertTask(id: int, dayId: int, kind: TaskType, value: Option<string>): (t: Task)
    ensures t.id == id && t.dayId == dayId && t.kind == kind && t.value == value
    ensures !t.completed
  {
    Task(id, dayId, kind, false, value)
  }

  /** Inserting a custom todo; `completed` takes its default, false. */
  function InsertTodo(id: int, dayId: int, title: string, description: Option<string>): (t: CustomTodo)
    ensures t.id == id && t.dayId == dayId && t.title == title && t.description == description
    ensures !t.completed
  {
    CustomTodo(id, dayId, title, description, false)
  }

  /** Inserting a subtask; `completed` takes its default, false. */
  function InsertSubtask(id: int, todoId: int, content: string): (s: Subtask)
    ensures s.id == id && s.todoId == todoId && s.content == content
    ensures !s.completed
  {
    Subtask(id, todoId, content, false)
  }

  // ---------------------------------------------------------------------------
  // Table-level constraints
  // ---------------------------------------------------------------------------

  /** The ids present in the `days` table. */
  function DayIds(ds: seq<Day>): set<int> {
    set d | d in ds :: d.id
  }

  /** `days` rows in primary-key order: ids strictly increase, so no id repeats. */
  ghost predicate DayKeysOrdered(ds: seq<Day>) {
    forall i, j :: 0 <= i < j < |ds| ==> ds[i].id < ds[j].id
  }

  /** `tasks` rows in AUTOINCREMENT order: ids strictly increase, so no id repeats. */
  ghost predicate TaskKeysOrdered(ts: seq<Task>) {
    forall i, j :: 0 <= i < j < |ts| ==> ts[i].id < ts[j].id
  }

  /** Every task id was handed out by the AUTOINCREMENT sequence, whose next value is `next`. */
  ghost predicate TaskIdsBelow(ts: seq<Task>, next: int) {
    forall i :: 0 <= i < |ts| ==> ts[i].id < next
  }

  /** The foreign key `tasks.day_id -> days.id`. */
  ghost predicate TasksReferToDays(ds: seq<Day>, ts: seq<Task>) {
    forall i :: 0 <= i < |ts| ==> ts[i].dayId in DayIds(ds)
  }

  // ---------------------------------------------------------------------------
  // ON DELETE CASCADE: deleting a custom todo deletes its subtasks
  // ---------------------------------------------------------------------------

  /** `delete from custom_todos where id = todoId`. */
  function RemoveTodo(todos: seq<CustomTodo>, todoId: int): (r: seq<CustomTodo>)
    ensures forall t :: t in r <==> t in todos && t.id != todoId
    ensures |r| <= |todos|
  {
    if todos == [] then []
    else if todos[0].id == todoId then RemoveTodo(todos[1..], todoId)
    else [todos[0]] + RemoveTodo(todos[1..], todoId)
  }

  /** The cascade on `todo_subtasks`: every subtask of the deleted todo goes, the rest stay in order. */
  function CascadeSubtasks(subtasks: seq<Subtask>, todoId: int): (r: seq<Subtask>)
    ensures forall s :: s in r <==> s in subtasks && s.todoId != todoId
    ensures |r| <= |subtasks|
  {
    if subtasks == [] then []
    else if subtasks[0].todoId == todoId then CascadeSubtasks(subtasks[1..], todoId)
    else [subtasks[0]] + CascadeSubtasks(subtasks[1..], todoId)
  }

  /** `select * from todo_subtasks where todo_id = todoId`, in table order. */
  function SubtasksOf(subtasks: seq<Subtask>, todoId: int): (r: seq<Subtask>)
    ensures forall s :: s in r <==> s in subtasks && s.todoId == todoId
  {
    if subtasks == [] then []
    else if subtasks[0].todoId == todoId then [subtasks[0]] + SubtasksOf(subtasks[1..], todoId)
    else SubtasksOf(subtasks[1..], todoId)
  }

  /** After the cascade, a query for the deleted todo's subtasks yields nothing. */
  lemma {:induction false} CascadeLeavesNoOrphans(subtasks: seq<Subtask>, todoId: int)
    ensures SubtasksOf(CascadeSubtasks(subtasks, todoId), todoId) == []
  {
    if subtasks != [] {
      CascadeLeavesNoOrphans(subtasks[1..], todoId);
    }
  }

  /** The cascade leaves the subtasks of every other todo exactly as they were, in order. */
  lemma {:induction false} CascadeKeepsOtherSubtasks(subtasks: seq<Subtask>, todoId: int, other: int)
    requires other != todoId
    ensures SubtasksOf(CascadeSubtasks(subtasks, todoId), other) == SubtasksOf(subtasks, other)
  {
    if subtasks != [] {
      CascadeKeepsOtherSubtasks(subtasks[1..], todoId, other);
    }
  }

  /** The cascade is a no-op on a table with no subtask of that todo. */
  lemma {:induction false} CascadeWithoutChildren(subtasks: seq<Subtask>, todoId: int)
    requires SubtasksOf(subtasks, todoId) == []
    ensures CascadeSubtasks(subtasks, todoId) == subtasks
  {
    if subtasks != [] {
      assert subtasks[0] in subtasks;
      CascadeWithoutChildren(subtasks[1..], todoId);
    }
  }
}
