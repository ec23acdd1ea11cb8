/**
 * The challenge store: one object owning the cursor (`currentDayId`) and three
 * cached projections (`todayTasks`, `daysPath`, `galleryImages`), working on a
 * database handle that owns the tables. Each operation is one sequential,
 * atomic update; the table effects are the functions of module Challenge.
 */
module Store {
  import opened Schema
  import opened Challenge

  /** The database handle: the four tables and the AUTOINCREMENT sequence of `tasks`. */
  class Database {
    var days: seq<Day>
    var tasks: seq<Task>
    var todos: seq<CustomTodo>
    var subtasks: seq<Subtask>
    /** One more than the largest task id ever handed out; deleting rows does not lower it. */
    var nextTaskId: int

    ghost predicate Valid()
      reads this
    {
      && Consistent(Tables(days, tasks))
      && TaskIdsBelow(tasks, nextTaskId)
    }

    /** Opens a database whose persisted tables are well formed. */
    constructor (days: seq<Day>, tasks: seq<Task>, todos: seq<CustomTodo>, subtasks: seq<Subtask>, nextTaskId: int)
      requires Consistent(Tables(days, tasks))
      requires TaskIdsBelow(tasks, nextTaskId)
      ensures Valid()
      ensures this.days == days && this.tasks == tasks && this.todos == todos
      ensures this.subtasks == subtasks && this.nextTaskId == nextTaskId
    {
      this.days := days;
      this.tasks := tasks;
      this.todos := todos;
      this.subtasks := subtasks;
      this.nextTaskId := nextTaskId;
    }

    /** `delete from custom_todos where id = todoId`; ON DELETE CASCADE removes its subtasks. */
    method DeleteTodo(todoId: int)
      requires Valid()
      modifies this`todos, this`subtasks
      ensures Valid()
      ensures todos == RemoveTodo(old(todos), todoId)
      ensures subtasks == CascadeSubtasks(old(subtasks), todoId)
      ensures SubtasksOf(subtasks, todoId) == []
    {
      todos := RemoveTodo(todos, todoId);
      subtasks := CascadeSubtasks(subtasks, todoId);
      CascadeLeavesNoOrphans(old(subtasks), todoId);
    }
  }

  /**
   * The body of `startChallenge`'s transaction: the 75 day rows and, for each day,
   * its seven task rows with the ids the table hands out from `firstTaskId` on.
   * The caller commits all of them at once or none.
   */
  method SeedChallenge(start: int, firstTaskId: int) returns (ds: seq<Day>, ts: seq<Task>, nextId: int)
    ensures ds == SeedDays(start)
    ensures ts == SeedTasks(firstTaskId)
    ensures nextId == firstTaskId + ChallengeDays * TasksPerDay
  {
    ds, ts, nextId := [], [], firstTaskId;
    for i := 1 to ChallengeDays + 1
      invariant ds == SeedDaysUpTo(start, i - 1)
      invariant ts == SeedTasksUpTo(firstTaskId, i - 1)
      invariant nextId == firstTaskId + 7 * (i - 1)
    {
      ds := ds + [SeedDay(start, i)];
      var dayId := i;
      ts := ts + DailyRows(nextId, dayId);
      nextId := nextId + TasksPerDay;
    }
  }

  class ChallengeStore {
    const db: Database
    var isInitialized: bool
    var currentDayId: Option<int>
    var todayTasks: seq<Task>
    var daysPath: seq<Day>
    var galleryImages: seq<GalleryImage>

    ghost predicate Valid()
      reads this, db
    {
      db.Valid()
    }

    /** JavaScript truthiness of `currentDayId`: null and 0 both mean "no current day". */
    predicate HasCurrentDay()
      reads this
    {
      currentDayId.Some? && currentDayId.value != 0
    }

    /** Every active day is the current day (so, with unique ids, at most one is active). */
    ghost predicate CursorConsistent()
      reads this, db
    {
      ActiveIsCursor(db.days, currentDayId)
    }

    ghost function DbTables(): Tables
      reads db
    {
      Tables(db.days, db.tasks)
    }

    /** The store's initial state over an opened database. */
    constructor (db: Database)
      requires db.Valid()
      ensures Valid() && this.db == db
      ensures !isInitialized && currentDayId == None
      ensures todayTasks == [] && daysPath == [] && galleryImages == []
    {
      this.db := db;
      isInitialized := false;
      currentDayId := None;
      todayTasks := [];
      daysPath := [];
      galleryImages := [];
    }

    /** `refreshToday`: reload the current day's tasks; nothing happens without a current day. */
    method RefreshToday()
      modifies this`todayTasks
      ensures HasCurrentDay() ==> todayTasks == TasksOfDay(db.tasks, currentDayId.value)
      ensures !HasCurrentDay() ==> todayTasks == old(todayTasks)
    {
      if !HasCurrentDay() {
        return;
      }
      todayTasks := TasksOfDay(db.tasks, currentDayId.value);
    }

    /** `refreshPath`: reload every day, in ascending id order. */
    method RefreshPath()
      modifies this`daysPath
      ensures daysPath == db.days
      ensures Valid() ==> DayKeysOrdered(daysPath)
    {
      daysPath := db.days;
    }

    /**
     * `refreshGallery`: reload the completed `pic` tasks whose value is a local file
     * uri, in table order.
     */
    method RefreshGallery()
      modifies this`galleryImages
      ensures galleryImages == Gallery(db.tasks)
      ensures galleryImages == GallerySpec(db.tasks)
    {
      galleryImages := Gallery(db.tasks);
      GalleryMatchesSpec(db.tasks);
    }

    /**
     * `initApp` with today's date: the missed-day check on the first active day, then
     * both refreshes. On a database with at most one active day it establishes the
     * cursor invariant.
     */
    method InitApp(today: int)
      requires Valid()
      modifies this, db
      ensures Valid()
      ensures db.days == Resume(old(db.days), today, old(currentDayId)).days
      ensures currentDayId == Resume(old(db.days), today, old(currentDayId)).cursor
      ensures db.tasks == old(db.tasks) && db.todos == old(db.todos) && db.subtasks == old(db.subtasks)
      ensures db.nextTaskId == old(db.nextTaskId)
      ensures old(AtMostOneActive(db.days)) ==> CursorConsistent()
      ensures HasCurrentDay() ==> todayTasks == TasksOfDay(db.tasks, currentDayId.value)
      ensures !HasCurrentDay() ==> todayTasks == old(todayTasks)
      ensures daysPath == db.days && galleryImages == old(galleryImages) && isInitialized
    {
      ghost var before := db.days;
      match FirstActive(db.days) {
        case None =>
        case Some(k) =>
          var activeDay := db.days[k];
          if activeDay.date < today {
            db.days := SetDayStatus(db.days, activeDay.id, Failed);
            currentDayId := Some(activeDay.id);
          } else {
            currentDayId := Some(activeDay.id);
          }
      }
      SameKeysKeepConsistent(Tables(before, db.tasks), DbTables(), db.nextTaskId);
      if AtMostOneActive(before) {
        ResumeEstablishesCursor(before, today, old(currentDayId));
      }
      RefreshToday();
      RefreshPath();
      isInitialized := true;
    }

    /**
     * `startChallenge(start)`: replace both tables by the 75 seeded days and their
     * 525 tasks, in one transaction, and make day 1 current. Custom todos and their
     * subtasks are not touched.
     */
    method StartChallenge(start: int)
      requires Valid()
      modifies this, db
      ensures Valid() && CursorConsistent()
      ensures db.days == SeedDays(start)
      ensures db.tasks == SeedTasks(old(db.nextTaskId))
      ensures db.nextTaskId == old(db.nextTaskId) + ChallengeDays * TasksPerDay
      ensures db.todos == old(db.todos) && db.subtasks == old(db.subtasks)
      ensures currentDayId == Some(1) && daysPath == db.days
      ensures todayTasks == DailyRows(old(db.nextTaskId), 1)
      ensures galleryImages == old(galleryImages) && isInitialized == old(isInitialized)
    {
      var ds, ts, next := SeedChallenge(start, db.nextTaskId);
      ghost var firstId := db.nextTaskId;
      db.days, db.tasks, db.nextTaskId := ds, ts, next;
      SeedDaysShape(start);
      SeedTasksShape(start, firstId);
      SeedEstablishesCursor(start);
      SeedTasksOfDay(firstId, ChallengeDays, 1);
      currentDayId := Some(1);
      RefreshToday();
      RefreshPath();
    }

    /** `restartChallenge`: start again from today's date. */
    method RestartChallenge(today: int)
      requires Valid()
      modifies this, db
      ensures Valid() && CursorConsistent()
      ensures db.days == SeedDays(today)
      ensures db.tasks == SeedTasks(old(db.nextTaskId))
      ensures db.nextTaskId == old(db.nextTaskId) + ChallengeDays * TasksPerDay
      ensures db.todos == old(db.todos) && db.subtasks == old(db.subtasks)
      ensures currentDayId == Some(1) && daysPath == db.days
      ensures todayTasks == DailyRows(old(db.nextTaskId), 1)
      ensures galleryImages == old(galleryImages) && isInitialized == old(isInitialized)
    {
      StartChallenge(today);
    }

    /**
     * `toggleTask(taskId, currentStatus)`: without a current day nothing happens;
     * otherwise the task becomes `!currentStatus`, today's tasks are reloaded, the
     * current day's status is re-derived and the path is reloaded.
     */
    method ToggleTask(taskId: int, currentStatus: bool)
      requires Valid()
      modifies this, db
      ensures Valid()
      ensures old(CursorConsistent()) ==> CursorConsistent()
      ensures currentDayId == old(currentDayId) && galleryImages == old(galleryImages)
      ensures isInitialized == old(isInitialized)
      ensures db.todos == old(db.todos) && db.subtasks == old(db.subtasks) && db.nextTaskId == old(db.nextTaskId)
      ensures !HasCurrentDay() ==>
        DbTables() == old(DbTables()) && todayTasks == old(todayTasks) && daysPath == old(daysPath)
      ensures HasCurrentDay() ==>
        && DbTables() == Toggle(old(DbTables()), currentDayId.value, taskId, currentStatus)
        && todayTasks == TasksOfDay(db.tasks, currentDayId.value)
        && daysPath == db.days
    {
      if !HasCurrentDay() {
        return;
      }
      var cur := currentDayId.value;
      ghost var before := DbTables();
      db.tasks := SetTaskCompleted(db.tasks, taskId, !currentStatus);
      RefreshToday();
      var dayStatus := DerivedStatus(db.tasks, cur);
      db.days := SetDayStatus(db.days, cur, dayStatus);
      assert DbTables() == Toggle(before, cur, taskId, currentStatus);
      ToggleKeepsInvariants(before, cur, taskId, currentStatus, db.nextTaskId);
      RefreshPath();
    }

    /**
     * `completeTaskWithValue(taskId, value)`: without a current day nothing happens;
     * otherwise the task becomes completed with that value, the current day's status
     * is re-derived, and today's tasks, the path and the gallery are reloaded.
     */
    method CompleteTaskWithValue(taskId: int, value: string)
      requires Valid()
      modifies this, db
      ensures Valid()
      ensures old(CursorConsistent()) ==> CursorConsistent()
      ensures currentDayId == old(currentDayId) && isInitialized == old(isInitialized)
      ensures db.todos == old(db.todos) && db.subtasks == old(db.subtasks) && db.nextTaskId == old(db.nextTaskId)
      ensures !HasCurrentDay() ==>
        && DbTables() == old(DbTables()) && todayTasks == old(todayTasks)
        && daysPath == old(daysPath) && galleryImages == old(galleryImages)
      ensures HasCurrentDay() ==>
        && DbTables() == CompleteWithValue(old(DbTables()), currentDayId.value, taskId, value)
        && todayTasks == TasksOfDay(db.tasks, currentDayId.value)
        && daysPath == db.days
        && galleryImages == GallerySpec(db.tasks)
    {
      if !HasCurrentDay() {
        return;
      }
      var cur := currentDayId.value;
      ghost var before := DbTables();
      db.tasks := SetTaskDone(db.tasks, taskId, value);
      RefreshToday();
      var dayStatus := DerivedStatus(db.tasks, cur);
      db.days := SetDayStatus(db.days, cur, dayStatus);
      assert DbTables() == CompleteWithValue(before, cur, taskId, value);
      CompleteKeepsInvariants(before, cur, taskId, value, db.nextTaskId);
      RefreshPath();
      RefreshGallery();
    }

    /**
     * `getJournal`: the current day's notes, or null when there is no current day,
     * no such row, or the notes are null or empty.
     */
    method GetJournal() returns (r: Option<string>)
      ensures !HasCurrentDay() ==> r == None
      ensures HasCurrentDay() ==> r == JournalOf(db.days, currentDayId.value)
      ensures r.Some? ==> r.value != "" && exists d :: d in db.days && d.id == currentDayId.value && d.notes == r
    {
      if !HasCurrentDay() {
        return None;
      }
      r := JournalOf(db.days, currentDayId.value);
    }

    /** `saveJournal(note)`: overwrite the current day's notes; nothing happens without a current day. */
    method SaveJournal(note: string)
      requires Valid()
      modifies db`days
      ensures Valid()
      ensures old(CursorConsistent()) ==> CursorConsistent()
      ensures !HasCurrentDay() ==> db.days == old(db.days)
      ensures HasCurrentDay() ==> db.days == SetDayNotes(old(db.days), currentDayId.value, note)
    {
      if !HasCurrentDay() {
        return;
      }
      ghost var before := db.days;
      db.days := SetDayNotes(db.days, currentDayId.value, note);
      NotesKeepCursor(before, currentDayId.value, note, currentDayId);
      SameKeysKeepConsistent(Tables(before, db.tasks), DbTables(), db.nextTaskId);
    }
  }
}
