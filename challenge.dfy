/**
 * The rules of the 75-day challenge as functions over the `days` and `tasks`
 * tables: seeding, the per-day task query, the derived day status, the field
 * updates the store issues, the missed-day check run on resume, the journal
 * read, and the progress gallery. The store class in module Store applies
 * these to its tables; the lemmas here state what the rules guarantee.
 */
module Challenge {
  import opened Schema

  const ChallengeDays: nat := 75
  /** Tasks seeded per day; index arithmetic over the seeded table writes this as the literal 7. */
  const TasksPerDay: nat := 7

  // ---------------------------------------------------------------------------
  // Seeding
  // ---------------------------------------------------------------------------

  /** One entry of the fixed daily list: a task type and the description stored as its value. */
  datatype TaskTemplate = TaskTemplate(kind: TaskType, value: string)

  /** The seven tasks inserted for every day, in insertion order. */
  const DailyTasks: seq<TaskTemplate> := [
    TaskTemplate(WorkoutOutdoor, "45 min Outdoor Workout"),
    TaskTemplate(WorkoutIndoor, "45 min Indoor Workout"),
    TaskTemplate(Water, "1 Gallon (3.7L)"),
    TaskTemplate(Read, "10 Pages (Non-fiction)"),
    TaskTemplate(Diet, "Follow Diet Plan"),
    TaskTemplate(NoAlcohol, "Zero Alcohol"),
    TaskTemplate(Pic, "Progress Picture")
  ]

  /** Where each task type sits in the daily list: every type occurs, and only once. */
  function TemplateIndex(t: TaskType): (k: nat)
    ensures k < TasksPerDay && DailyTasks[k].kind == t
    ensures forall j :: 0 <= j < TasksPerDay && DailyTasks[j].kind == t ==> j == k
  {
    match t
    case WorkoutOutdoor => 0
    case WorkoutIndoor => 1
    case Water => 2
    case Read => 3
    case Diet => 4
    case NoAlcohol => 5
    case Pic => 6
  }

  /** The day row inserted for day number i of a challenge starting on `start`. */
  function SeedDay(start: int, i: int): Day {
    InsertDay(i, start + (i - 1), Some(if i == 1 then Active else Locked))
  }

  /** The seven task rows inserted for `dayId`, with the ids the table assigns from `firstId` on. */
  function DailyRows(firstId: int, dayId: int): (r: seq<Task>)
    ensures |r| == TasksPerDay
  {
    seq(TasksPerDay, j requires 0 <= j < TasksPerDay =>
      InsertTask(firstId + j, dayId, DailyTasks[j].kind, Some(DailyTasks[j].value)))
  }

  /** The day rows after the first n iterations of the seeding loop. */
  function SeedDaysUpTo(start: int, n: nat): (r: seq<Day>)
    ensures |r| == n
  {
    if n == 0 then [] else SeedDaysUpTo(start, n - 1) + [SeedDay(start, n)]
  }

  /** The seven task rows of day d when the first day's rows start at `firstId`. */
  function DayRows(firstId: int, d: int): (r: seq<Task>)
    ensures |r| == TasksPerDay
  {
    DailyRows(firstId + 7 * (d - 1), d)
  }

  /** The task rows after the first n iterations of the seeding loop. */
  function SeedTasksUpTo(firstId: int, n: nat): (r: seq<Task>)
    ensures |r| == 7 * n
  {
    if n == 0 then [] else SeedTasksUpTo(firstId, n - 1) + DayRows(firstId, n)
  }

  /** The whole `days` table after a start on `start`. */
  function SeedDays(start: int): seq<Day> {
    SeedDaysUpTo(start, ChallengeDays)
  }

  /** The whole `tasks` table after a start whose first assigned task id is `firstId`. */
  function SeedTasks(firstId: int): seq<Task> {
    SeedTasksUpTo(firstId, ChallengeDays)
  }

  lemma {:induction false} SeedDaysUpToShape(start: int, n: nat)
    ensures |SeedDaysUpTo(start, n)| == n
    ensures forall k :: 0 <= k < n ==> SeedDaysUpTo(start, n)[k] == SeedDay(start, k + 1)
  {
    if n > 0 {
      SeedDaysUpToShape(start, n - 1);
    }
  }

  lemma {:induction false} SeedTasksUpToShape(firstId: int, n: nat)
    ensures |SeedTasksUpTo(firstId, n)| == 7 * n
    ensures forall k :: 0 <= k < 7 * n ==>
      SeedTasksUpTo(firstId, n)[k] ==
        InsertTask(firstId + k, k / 7 + 1, DailyTasks[k % 7].kind, Some(DailyTasks[k % 7].value))
  {
    if n > 0 {
      SeedTasksUpToShape(firstId, n - 1);
      var prev := SeedTasksUpTo(firstId, n - 1);
      var rows := DailyRows(firstId + 7 * (n - 1), n);
      forall k | 7 * (n - 1) <= k < 7 * n
        ensures SeedTasksUpTo(firstId, n)[k] ==
          InsertTask(firstId + k, k / 7 + 1, DailyTasks[k % 7].kind, Some(DailyTasks[k % 7].value))
      {
        var j := k - 7 * (n - 1);
        assert k / 7 == n - 1 && k % 7 == j;
        assert SeedTasksUpTo(firstId, n)[k] == rows[j];
      }
    }
  }

  /**
   * After a start on `start`: exactly the days 1..75 exist, in id order; day i is
   * dated start + (i - 1); day 1 is active and every other day locked; no notes.
   */
  lemma SeedDaysShape(start: int)
    ensures |SeedDays(start)| == ChallengeDays
    ensures DayKeysOrdered(SeedDays(start))
    ensures forall id :: id in DayIds(SeedDays(start)) <==> 1 <= id <= ChallengeDays
    ensures forall k :: 0 <= k < ChallengeDays ==>
      && SeedDays(start)[k].id == k + 1
      && SeedDays(start)[k].date == start + k
      && SeedDays(start)[k].status == (if k == 0 then Active else Locked)
      && SeedDays(start)[k].notes == None
  {
    var ds := SeedDays(start);
    SeedDaysUpToShape(start, ChallengeDays);
    forall id | 1 <= id <= ChallengeDays ensures id in DayIds(ds) {
      assert ds[id - 1] in ds;
    }
  }

  /**
   * After a start whose first task id is `firstId`: 525 tasks with fresh, increasing ids
   * from `firstId` on; every task incomplete, carrying its type's default description,
   * and owned by one of the days 1..75.
   */
  lemma SeedTasksShape(start: int, firstId: int)
    ensures |SeedTasks(firstId)| == ChallengeDays * TasksPerDay
    ensures TaskKeysOrdered(SeedTasks(firstId))
    ensures TasksReferToDays(SeedDays(start), SeedTasks(firstId))
    ensures forall k :: 0 <= k < |SeedTasks(firstId)| ==>
      && SeedTasks(firstId)[k].id == firstId + k
      && !SeedTasks(firstId)[k].completed
      && SeedTasks(firstId)[k].value == Some(DailyTasks[TemplateIndex(SeedTasks(firstId)[k].kind)].value)
  {
    var ts := SeedTasks(firstId);
    SeedTasksUpToShape(firstId, ChallengeDays);
    SeedDaysShape(start);
    forall k | 0 <= k < |ts| ensures ts[k].dayId in DayIds(SeedDays(start)) {
      assert 1 <= k / 7 + 1 <= ChallengeDays;
    }
  }

  /**
   * Every seeded day has exactly seven tasks, one per task type: the tasks of day d
   * are precisely the index range [7(d-1), 7d), and each type appears there once.
   */
  lemma SeedOneTaskPerType(firstId: int, d: int, t: TaskType)
    requires 1 <= d <= ChallengeDays
    ensures var ts := SeedTasks(firstId);
      && (forall k :: 0 <= k < |ts| ==> (ts[k].dayId == d <==> 7 * (d - 1) <= k < 7 * d))
      && (forall k :: 0 <= k < |ts| && ts[k].dayId == d && ts[k].kind == t ==> k == 7 * (d - 1) + TemplateIndex(t))
      && ts[7 * (d - 1) + TemplateIndex(t)].dayId == d
      && ts[7 * (d - 1) + TemplateIndex(t)].kind == t
  {
    var ts := SeedTasks(firstId);
    SeedTasksUpToShape(firstId, ChallengeDays);
    forall k | 0 <= k < |ts| ensures ts[k].dayId == d <==> 7 * (d - 1) <= k < 7 * d {
      assert ts[k].dayId == k / 7 + 1;
    }
    forall k | 0 <= k < |ts| && ts[k].dayId == d && ts[k].kind == t
      ensures k == 7 * (d - 1) + TemplateIndex(t)
    {
      assert k / 7 == d - 1;
      assert DailyTasks[k % 7].kind == t;
    }
    var k := 7 * (d - 1) + TemplateIndex(t);
    assert k / 7 == d - 1 && k % 7 == TemplateIndex(t);
  }

  // ---------------------------------------------------------------------------
  // Queries
  // ---------------------------------------------------------------------------

  /** `select * from tasks where day_id = dayId`, in table order. */
  function TasksOfDay(ts: seq<Task>, dayId: int): (r: seq<Task>)
    ensures forall t :: t in r <==> t in ts && t.dayId == dayId
    ensures |r| <= |ts|
  {
    if ts == [] then []
    else (if ts[0].dayId == dayId then [ts[0]] else []) + TasksOfDay(ts[1..], dayId)
  }

  lemma {:induction false} TasksOfDayAppend(a: seq<Task>, b: seq<Task>, dayId: int)
    ensures TasksOfDay(a + b, dayId) == TasksOfDay(a, dayId) + TasksOfDay(b, dayId)
  {
    if a != [] {
      assert (a + b)[0] == a[0];
      assert (a + b)[1..] == a[1..] + b;
      TasksOfDayAppend(a[1..], b, dayId);
    } else {
      assert a + b == b;
    }
  }

  lemma {:induction false} TasksOfDayAllOrNothing(ts: seq<Task>, dayId: int)
    ensures (forall i :: 0 <= i < |ts| ==> ts[i].dayId == dayId) ==> TasksOfDay(ts, dayId) == ts
    ensures (forall i :: 0 <= i < |ts| ==> ts[i].dayId != dayId) ==> TasksOfDay(ts, dayId) == []
  {
    if ts != [] {
      TasksOfDayAllOrNothing(ts[1..], dayId);
    }
  }

  lemma DailyRowsOfDay(firstId: int, n: int, d: int)
    ensures TasksOfDay(DailyRows(firstId, n), d) == if d == n then DailyRows(firstId, n) else []
  {
    var rows := DailyRows(firstId, n);
    assert forall i :: 0 <= i < |rows| ==> rows[i].dayId == n;
    TasksOfDayAllOrNothing(rows, d);
  }

  /** One iteration of the seeding loop, seen by the per-day query. */
  lemma AppendDay(prev: seq<Task>, rows: seq<Task>, d: int, n: int)
    requires TasksOfDay(rows, d) == (if d == n then rows else [])
    requires d == n ==> TasksOfDay(prev, d) == []
    ensures TasksOfDay(prev + rows, d) == (if d == n then rows else TasksOfDay(prev, d))
  {
    TasksOfDayAppend(prev, rows, d);
    if d == n {
      assert [] + rows == rows;
    } else {
      assert TasksOfDay(prev, d) + [] == TasksOfDay(prev, d);
    }
  }

  /**
   * The per-day query over a freshly seeded table returns exactly the seven rows
   * inserted for that day, in the daily list's order, and nothing for any other day.
   */
  lemma {:induction false} SeedTasksOfDay(firstId: int, n: nat, d: int)
    ensures 1 <= d <= n ==> TasksOfDay(SeedTasksUpTo(firstId, n), d) == DayRows(firstId, d)
    ensures !(1 <= d <= n) ==> TasksOfDay(SeedTasksUpTo(firstId, n), d) == []
  {
    if n > 0 {
      var prev := SeedTasksUpTo(firstId, n - 1);
      var rows := DayRows(firstId, n);
      SeedTasksOfDay(firstId, n - 1, d);
      assert TasksOfDay(SeedTasksUpTo(firstId, n), d) == TasksOfDay(prev + rows, d) by {
        assert SeedTasksUpTo(firstId, n) == prev + rows;
      }
      if d == n {
        assert TasksOfDay(prev + rows, d) == rows by {
          DailyRowsOfDay(firstId + 7 * (n - 1), n, d);
          AppendDay(prev, rows, d, n);
        }
      } else {
        assert TasksOfDay(prev + rows, d) == TasksOfDay(prev, d) by {
          DailyRowsOfDay(firstId + 7 * (n - 1), n, d);
          AppendDay(prev, rows, d, n);
        }
      }
    }
  }

  /** JavaScript `every(t => t.completed)`: true of an empty list. */
  predicate AllComplete(ts: seq<Task>) {
    forall i :: 0 <= i < |ts| ==> ts[i].completed
  }

  /**
   * The status written back after a task update: `completed` exactly when every task
   * row of the day is completed (so also when the day has no task rows), else `active`.
   */
  function DerivedStatus(ts: seq<Task>, dayId: int): (s: DayStatus)
    ensures s == Completed || s == Active
    ensures s == Completed <==> forall t :: t in ts && t.dayId == dayId ==> t.completed
  {
    var mine := TasksOfDay(ts, dayId);
    if AllComplete(mine) then Completed
    else
      assert exists i :: 0 <= i < |mine| && !mine[i].completed;
      Active
  }

  /** The first row of `days` with status `active` (`findFirst` in primary-key order). */
  function FirstActive(ds: seq<Day>): (r: Option<nat>)
    ensures r.Some? ==> r.value < |ds| && ds[r.value].status == Active
    ensures r.Some? ==> forall j :: 0 <= j < r.value ==> ds[j].status != Active
    ensures r.None? ==> forall j :: 0 <= j < |ds| ==> ds[j].status != Active
  {
    if ds == [] then None
    else if ds[0].status == Active then Some(0)
    else match FirstActive(ds[1..])
      case None => None
      case Some(k) => Some(k + 1)
  }

  /** The first row of `days` with the given id, if any. */
  function FindDay(ds: seq<Day>, id: int): (r: Option<Day>)
    ensures r.Some? ==> r.value in ds && r.value.id == id
    ensures r.None? <==> id !in DayIds(ds)
    ensures DayKeysOrdered(ds) ==> forall d :: d in ds && d.id == id ==> r == Some(d)
  {
    if ds == [] then None
    else if ds[0].id == id then Some(ds[0])
    else
      assert DayKeysOrdered(ds) ==> DayKeysOrdered(ds[1..]);
      FindDay(ds[1..], id)
  }

  /** `day?.notes || null`: no row, null notes and empty notes all read as null. */
  function JournalOf(ds: seq<Day>, id: int): (r: Option<string>)
    ensures r.Some? ==> r.value != "" && exists d :: d in ds && d.id == id && d.notes == r
    ensures id !in DayIds(ds) ==> r == None
    ensures DayKeysOrdered(ds) ==>
      forall d :: d in ds && d.id == id ==> r == (if d.notes == Some("") then None else d.notes)
  {
    match FindDay(ds, id)
    case None => None
    case Some(d) => if d.notes == None || d.notes == Some("") then None else d.notes
  }

  // ---------------------------------------------------------------------------
  // Field updates (`update ... set ... where id = ...`)
  // ---------------------------------------------------------------------------

  /** `update tasks set completed = c where id = taskId`. */
  function SetTaskCompleted(ts: seq<Task>, taskId: int, c: bool): (r: seq<Task>)
    ensures |r| == |ts|
    ensures forall i :: 0 <= i < |ts| ==>
      r[i] == if ts[i].id == taskId then ts[i].(completed := c) else ts[i]
  {
    if ts == [] then []
    else [if ts[0].id == taskId then ts[0].(completed := c) else ts[0]] + SetTaskCompleted(ts[1..], taskId, c)
  }

  /** `update tasks set completed = true, value = v where id = taskId`. */
  function SetTaskDone(ts: seq<Task>, taskId: int, v: string): (r: seq<Task>)
    ensures |r| == |ts|
    ensures forall i :: 0 <= i < |ts| ==>
      r[i] == if ts[i].id == taskId then ts[i].(completed := true, value := Some(v)) else ts[i]
  {
    if ts == [] then []
    else [if ts[0].id == taskId then ts[0].(completed := true, value := Some(v)) else ts[0]]
         + SetTaskDone(ts[1..], taskId, v)
  }

  /** `update days set status = s where id = dayId`. */
  function SetDayStatus(ds: seq<Day>, dayId: int, s: DayStatus): (r: seq<Day>)
    ensures |r| == |ds|
    ensures forall i :: 0 <= i < |ds| ==>
      r[i] == if ds[i].id == dayId then ds[i].(status := s) else ds[i]
  {
    if ds == [] then []
    else [if ds[0].id == dayId then ds[0].(status := s) else ds[0]] + SetDayStatus(ds[1..], dayId, s)
  }

  /** `update days set notes = n where id = dayId`. */
  function SetDayNotes(ds: seq<Day>, dayId: int, n: string): (r: seq<Day>)
    ensures |r| == |ds|
    ensures forall i :: 0 <= i < |ds| ==>
      r[i] == if ds[i].id == dayId then ds[i].(notes := Some(n)) else ds[i]
  {
    if ds == [] then []
    else [if ds[0].id == dayId then ds[0].(notes := Some(n)) else ds[0]] + SetDayNotes(ds[1..], dayId, n)
  }

  // ---------------------------------------------------------------------------
  // The operations' effect on the tables
  // ---------------------------------------------------------------------------

  datatype Tables = Tables(days: seq<Day>, tasks: seq<Task>)

  /** Re-derive the status of day `cur` from the current task table. */
  function Recompute(ds: seq<Day>, ts: seq<Task>, cur: int): seq<Day> {
    SetDayStatus(ds, cur, DerivedStatus(ts, cur))
  }

  /**
   * `toggleTask(taskId, currentStatus)` with current day `cur`: the task becomes
   * `!currentStatus` (whatever it was), then day `cur` (not necessarily the task's
   * own day) is re-derived, overwriting any status it had, `failed` included.
   */
  function Toggle(tb: Tables, cur: int, taskId: int, currentStatus: bool): Tables {
    var ts := SetTaskCompleted(tb.tasks, taskId, !currentStatus);
    Tables(Recompute(tb.days, ts, cur), ts)
  }

  /**
   * `completeTaskWithValue(taskId, v)` with current day `cur`: the task becomes
   * completed with value v, then day `cur` is re-derived as in Toggle.
   */
  function CompleteWithValue(tb: Tables, cur: int, taskId: int, v: string): Tables {
    var ts := SetTaskDone(tb.tasks, taskId, v);
    Tables(Recompute(tb.days, ts, cur), ts)
  }

  /**
   * What a toggle does: only the rows of task `taskId` change, and only their
   * `completed` flag, to `!currentStatus`; only the rows of day `cur` change, and only
   * their status, to `completed` when every task of `cur` is now completed and to
   * `active` otherwise, whatever the status was before.
   */
  lemma ToggleEffect(tb: Tables, cur: int, taskId: int, currentStatus: bool)
    ensures var r := Toggle(tb, cur, taskId, currentStatus);
      && |r.tasks| == |tb.tasks| && |r.days| == |tb.days|
      && (forall i :: 0 <= i < |tb.tasks| ==>
            r.tasks[i] == if tb.tasks[i].id == taskId then tb.tasks[i].(completed := !currentStatus) else tb.tasks[i])
      && (forall i :: 0 <= i < |tb.days| && tb.days[i].id != cur ==> r.days[i] == tb.days[i])
      && (forall i :: 0 <= i < |tb.days| && tb.days[i].id == cur ==>
            && r.days[i].(status := tb.days[i].status) == tb.days[i]
            && (r.days[i].status == Completed <==> forall t :: t in r.tasks && t.dayId == cur ==> t.completed)
            && (r.days[i].status == Completed || r.days[i].status == Active))
  {
  }

  /**
   * What a completion does: only the rows of task `taskId` change, to completed with
   * value v; the rows of day `cur` are re-derived as in a toggle.
   */
  lemma CompleteEffect(tb: Tables, cur: int, taskId: int, v: string)
    ensures var r := CompleteWithValue(tb, cur, taskId, v);
      && |r.tasks| == |tb.tasks| && |r.days| == |tb.days|
      && (forall i :: 0 <= i < |tb.tasks| ==>
            r.tasks[i] == if tb.tasks[i].id == taskId then tb.tasks[i].(completed := true, value := Some(v)) else tb.tasks[i])
      && (forall i :: 0 <= i < |tb.days| && tb.days[i].id != cur ==> r.days[i] == tb.days[i])
      && (forall i :: 0 <= i < |tb.days| && tb.days[i].id == cur ==>
            && r.days[i].(status := tb.days[i].status) == tb.days[i]
            && (r.days[i].status == Completed <==> forall t :: t in r.tasks && t.dayId == cur ==> t.completed)
            && (r.days[i].status == Completed || r.days[i].status == Active))
  {
  }

  /** The outcome of the resume-time check: the new `days` table and the new cursor. */
  datatype Resumed = Resumed(days: seq<Day>, cursor: Option<int>)

  /**
   * `initApp`'s check: find the first active day; if its date is strictly before
   * `today`, mark it failed; either way the cursor moves to it. With no active day
   * the table and the cursor are left as they are.
   */
  function Resume(ds: seq<Day>, today: int, cursor: Option<int>): Resumed {
    match FirstActive(ds)
    case None => Resumed(ds, cursor)
    case Some(k) =>
      if ds[k].date < today then Resumed(SetDayStatus(ds, ds[k].id, Failed), Some(ds[k].id))
      else Resumed(ds, Some(ds[k].id))
  }

  // ---------------------------------------------------------------------------
  // Progress gallery
  // ---------------------------------------------------------------------------

  /** One gallery entry: `{ id, uri, dayId }`. */
  datatype GalleryImage = GalleryImage(id: int, uri: string, dayId: int)

  const FilePrefix: string := "file://"

  /** `select * from tasks where type = 'pic' and completed = true`, in table order. */
  function CompletedPhotos(ts: seq<Task>): seq<Task> {
    if ts == [] then []
    else (if ts[0].kind == Pic && ts[0].completed then [ts[0]] else []) + CompletedPhotos(ts[1..])
  }

  /** `t.value || ''`: a null value becomes the empty string. */
  function UriOf(t: Task): string {
    match t.value
    case None => ""
    case Some(v) => v
  }

  /** The `map` step: each photo task as an image entry. */
  function ToImages(ts: seq<Task>): (r: seq<GalleryImage>)
    ensures |r| == |ts|
  {
    if ts == [] then [] else [GalleryImage(ts[0].id, UriOf(ts[0]), ts[0].dayId)] + ToImages(ts[1..])
  }

  /** The `filter` step: keep entries whose uri starts with `file://`. */
  function LocalFiles(imgs: seq<GalleryImage>): seq<GalleryImage> {
    if imgs == [] then []
    else (if FilePrefix <= imgs[0].uri then [imgs[0]] else []) + LocalFiles(imgs[1..])
  }

  /** `refreshGallery`'s pipeline exactly as written: query, then map, then filter. */
  function Gallery(ts: seq<Task>): seq<GalleryImage> {
    LocalFiles(ToImages(CompletedPhotos(ts)))
  }

  /** Which tasks belong in the gallery: completed `pic` tasks whose value is a local file uri. */
  predicate InGallery(t: Task) {
    t.kind == Pic && t.completed && t.value.Some? && FilePrefix <= t.value.value
  }

  /** Reference definition: one pass over the table, selecting and converting in order. */
  function GallerySpec(ts: seq<Task>): (r: seq<GalleryImage>)
    ensures forall img :: img in r <==> exists t :: t in ts && InGallery(t) && img == GalleryImage(t.id, t.value.value, t.dayId)
  {
    if ts == [] then []
    else
      var rest := GallerySpec(ts[1..]);
      var head := if InGallery(ts[0]) then [GalleryImage(ts[0].id, ts[0].value.value, ts[0].dayId)] else [];
      assert forall t :: t in ts <==> t == ts[0] || t in ts[1..];
      head + rest
  }

  /**
   * The query/map/filter pipeline selects exactly the completed `pic` tasks whose value
   * starts with `file://`, in table order, each as (task id, value, day id); a null
   * value counts as `''` and is dropped.
   */
  lemma {:induction false} GalleryMatchesSpec(ts: seq<Task>)
    ensures Gallery(ts) == GallerySpec(ts)
  {
    if ts != [] {
      GalleryMatchesSpec(ts[1..]);
      var t := ts[0];
      if t.kind == Pic && t.completed {
        assert CompletedPhotos(ts) == [t] + CompletedPhotos(ts[1..]);
        assert ToImages(CompletedPhotos(ts)) == [GalleryImage(t.id, UriOf(t), t.dayId)] + ToImages(CompletedPhotos(ts[1..]));
        var imgs := ToImages(CompletedPhotos(ts));
        assert imgs[1..] == ToImages(CompletedPhotos(ts[1..]));
        if t.value.None? {
          assert !(FilePrefix <= "");
        }
      } else {
        assert CompletedPhotos(ts) == CompletedPhotos(ts[1..]);
      }
    }
  }

  // ---------------------------------------------------------------------------
  // Invariants
  // ---------------------------------------------------------------------------

  /** Every active day is the cursor's day. */
  ghost predicate ActiveIsCursor(ds: seq<Day>, cursor: Option<int>) {
    forall i :: 0 <= i < |ds| && ds[i].status == Active ==> cursor == Some(ds[i].id)
  }

  /** At most one row of `days` is active. */
  ghost predicate AtMostOneActive(ds: seq<Day>) {
    forall i, j :: 0 <= i < |ds| && 0 <= j < |ds| && ds[i].status == Active && ds[j].status == Active ==> i == j
  }

  /** Keys and foreign keys of the two tables are well formed. */
  ghost predicate Consistent(tb: Tables) {
    DayKeysOrdered(tb.days) && TaskKeysOrdered(tb.tasks) && TasksReferToDays(tb.days, tb.tasks)
  }

  /** `b` has the same rows as `a` up to non-key columns. */
  ghost predicate SameKeys(a: Tables, b: Tables) {
    && |a.days| == |b.days| && |a.tasks| == |b.tasks|
    && (forall i :: 0 <= i < |a.days| ==> a.days[i].id == b.days[i].id)
    && (forall i :: 0 <= i < |a.tasks| ==> a.tasks[i].id == b.tasks[i].id && a.tasks[i].dayId == b.tasks[i].dayId)
  }

  /** With unique day ids, "every active day is the cursor's day" means at most one day is active. */
  lemma CursorMeansSingleActive(ds: seq<Day>, cursor: Option<int>)
    requires DayKeysOrdered(ds) && ActiveIsCursor(ds, cursor)
    ensures AtMostOneActive(ds)
  {
  }

  /** Updates that keep every key keep the tables consistent and the set of day ids. */
  lemma SameKeysKeepConsistent(a: Tables, b: Tables, next: int)
    requires SameKeys(a, b)
    ensures DayIds(a.days) == DayIds(b.days)
    ensures Consistent(a) ==> Consistent(b)
    ensures TaskIdsBelow(a.tasks, next) ==> TaskIdsBelow(b.tasks, next)
  {
    forall x | x in DayIds(a.days) ensures x in DayIds(b.days) {
      var d :| d in a.days && d.id == x;
      var i :| 0 <= i < |a.days| && a.days[i] == d;
      assert b.days[i] in b.days;
    }
    forall x | x in DayIds(b.days) ensures x in DayIds(a.days) {
      var d :| d in b.days && d.id == x;
      var i :| 0 <= i < |b.days| && b.days[i] == d;
      assert a.days[i] in a.days;
    }
  }

  /** Toggling and completing change no key, so they keep the tables consistent. */
  lemma UpdatesKeepKeys(tb: Tables, cur: int, taskId: int, b: bool, v: string)
    ensures SameKeys(tb, Toggle(tb, cur, taskId, b))
    ensures SameKeys(tb, CompleteWithValue(tb, cur, taskId, v))
  {
    ToggleEffect(tb, cur, taskId, b);
    CompleteEffect(tb, cur, taskId, v);
  }

  /**
   * Seeding, then moving the cursor to day 1, establishes the cursor invariant:
   * day 1 is the only active day.
   */
  lemma SeedEstablishesCursor(start: int)
    ensures ActiveIsCursor(SeedDays(start), Some(1))
    ensures AtMostOneActive(SeedDays(start))
  {
    SeedDaysShape(start);
    CursorMeansSingleActive(SeedDays(start), Some(1));
  }

  /**
   * The resume check on any table: the first active day alone becomes `failed` when
   * its date is before `today`; the cursor moves to it in both cases; with no active
   * day nothing changes.
   */
  lemma ResumeEffect(ds: seq<Day>, today: int, cursor: Option<int>)
    ensures FirstActive(ds).None? ==> Resume(ds, today, cursor) == Resumed(ds, cursor)
    ensures FirstActive(ds).Some? ==>
      var k := FirstActive(ds).value;
      var r := Resume(ds, today, cursor);
      && r.cursor == Some(ds[k].id)
      && |r.days| == |ds|
      && r.days[k].status == (if ds[k].date < today then Failed else Active)
      && (forall i :: 0 <= i < |ds| && ds[i].id != ds[k].id ==> r.days[i] == ds[i])
  {
  }

  /** The resume check, on a table with at most one active day, leaves every active day at the cursor. */
  lemma ResumeEstablishesCursor(ds: seq<Day>, today: int, cursor: Option<int>)
    requires AtMostOneActive(ds)
    ensures ActiveIsCursor(Resume(ds, today, cursor).days, Resume(ds, today, cursor).cursor)
  {
  }

  /**
   * A toggle or a completion keeps every active day at the cursor: only the cursor's
   * day is rewritten, and only to `active` or `completed`.
   */
  lemma UpdatesKeepCursor(tb: Tables, cur: int, taskId: int, b: bool, v: string)
    requires ActiveIsCursor(tb.days, Some(cur))
    ensures ActiveIsCursor(Toggle(tb, cur, taskId, b).days, Some(cur))
    ensures ActiveIsCursor(CompleteWithValue(tb, cur, taskId, v).days, Some(cur))
  {
    ToggleEffect(tb, cur, taskId, b);
    CompleteEffect(tb, cur, taskId, v);
  }

  /** A toggle keeps keys, foreign keys, the id sequence bound and the cursor invariant. */
  lemma ToggleKeepsInvariants(tb: Tables, cur: int, taskId: int, b: bool, next: int)
    ensures var r := Toggle(tb, cur, taskId, b);
      && (Consistent(tb) ==> Consistent(r))
      && (TaskIdsBelow(tb.tasks, next) ==> TaskIdsBelow(r.tasks, next))
      && (ActiveIsCursor(tb.days, Some(cur)) ==> ActiveIsCursor(r.days, Some(cur)))
  {
    UpdatesKeepKeys(tb, cur, taskId, b, "");
    SameKeysKeepConsistent(tb, Toggle(tb, cur, taskId, b), next);
    if ActiveIsCursor(tb.days, Some(cur)) {
      UpdatesKeepCursor(tb, cur, taskId, b, "");
    }
  }

  /** A completion keeps keys, foreign keys, the id sequence bound and the cursor invariant. */
  lemma CompleteKeepsInvariants(tb: Tables, cur: int, taskId: int, v: string, next: int)
    ensures var r := CompleteWithValue(tb, cur, taskId, v);
      && (Consistent(tb) ==> Consistent(r))
      && (TaskIdsBelow(tb.tasks, next) ==> TaskIdsBelow(r.tasks, next))
      && (ActiveIsCursor(tb.days, Some(cur)) ==> ActiveIsCursor(r.days, Some(cur)))
  {
    UpdatesKeepKeys(tb, cur, taskId, false, v);
    SameKeysKeepConsistent(tb, CompleteWithValue(tb, cur, taskId, v), next);
    if ActiveIsCursor(tb.days, Some(cur)) {
      UpdatesKeepCursor(tb, cur, taskId, false, v);
    }
  }

  /** Writing notes changes no status, so it keeps every active day at the cursor. */
  lemma NotesKeepCursor(ds: seq<Day>, cur: int, n: string, cursor: Option<int>)
    ensures ActiveIsCursor(ds, cursor) ==> ActiveIsCursor(SetDayNotes(ds, cur, n), cursor)
    ensures SameKeys(Tables(ds, []), Tables(SetDayNotes(ds, cur, n), []))
  {
  }

  // ---------------------------------------------------------------------------
  // Toggle, completion and journal properties
  // ---------------------------------------------------------------------------

  lemma {:induction false} SetTaskCompletedUndo(ts: seq<Task>, taskId: int, c: bool)
    requires forall i :: 0 <= i < |ts| && ts[i].id == taskId ==> ts[i].completed == c
    ensures SetTaskCompleted(SetTaskCompleted(ts, taskId, !c), taskId, c) == ts
  {
    if ts != [] {
      SetTaskCompletedUndo(ts[1..], taskId, c);
      var once := SetTaskCompleted(ts, taskId, !c);
      assert once[1..] == SetTaskCompleted(ts[1..], taskId, !c);
    }
  }

  lemma {:induction false} SetDayStatusUndo(ds: seq<Day>, dayId: int, s: DayStatus, s0: DayStatus)
    requires forall i :: 0 <= i < |ds| && ds[i].id == dayId ==> ds[i].status == s0
    ensures SetDayStatus(SetDayStatus(ds, dayId, s), dayId, s0) == ds
  {
    if ds != [] {
      SetDayStatusUndo(ds[1..], dayId, s, s0);
      var once := SetDayStatus(ds, dayId, s);
      assert once[1..] == SetDayStatus(ds[1..], dayId, s);
    }
  }

  /**
   * Toggling a task whose completed flag is `c` with currentStatus `c`, then with
   * currentStatus `!c`, restores the task table; the day table is restored too when
   * the current day's status was already the derived `active`/`completed` value.
   */
  lemma ToggleTwiceRestores(tb: Tables, cur: int, taskId: int, c: bool)
    requires forall i :: 0 <= i < |tb.tasks| && tb.tasks[i].id == taskId ==> tb.tasks[i].completed == c
    requires forall i :: 0 <= i < |tb.days| && tb.days[i].id == cur ==> tb.days[i].status == DerivedStatus(tb.tasks, cur)
    ensures Toggle(Toggle(tb, cur, taskId, c), cur, taskId, !c) == tb
  {
    var once := Toggle(tb, cur, taskId, c);
    SetTaskCompletedUndo(tb.tasks, taskId, c);
    assert Toggle(once, cur, taskId, !c).tasks == tb.tasks;
    SetDayStatusUndo(tb.days, cur, DerivedStatus(once.tasks, cur), DerivedStatus(tb.tasks, cur));
  }

  lemma {:induction false} SetTaskDoneIdempotent(ts: seq<Task>, taskId: int, v: string)
    ensures SetTaskDone(SetTaskDone(ts, taskId, v), taskId, v) == SetTaskDone(ts, taskId, v)
  {
    if ts != [] {
      SetTaskDoneIdempotent(ts[1..], taskId, v);
      var once := SetTaskDone(ts, taskId, v);
      assert once[1..] == SetTaskDone(ts[1..], taskId, v);
    }
  }

  lemma {:induction false} SetDayStatusIdempotent(ds: seq<Day>, dayId: int, s: DayStatus)
    ensures SetDayStatus(SetDayStatus(ds, dayId, s), dayId, s) == SetDayStatus(ds, dayId, s)
  {
    if ds != [] {
      SetDayStatusIdempotent(ds[1..], dayId, s);
      var once := SetDayStatus(ds, dayId, s);
      assert once[1..] == SetDayStatus(ds[1..], dayId, s);
    }
  }

  /** Completing the same task with the same value twice gives the tables of completing it once. */
  lemma CompleteIdempotent(tb: Tables, cur: int, taskId: int, v: string)
    ensures CompleteWithValue(CompleteWithValue(tb, cur, taskId, v), cur, taskId, v) == CompleteWithValue(tb, cur, taskId, v)
  {
    var once := CompleteWithValue(tb, cur, taskId, v);
    SetTaskDoneIdempotent(tb.tasks, taskId, v);
    SetDayStatusIdempotent(tb.days, cur, DerivedStatus(once.tasks, cur));
  }

  /** A `failed` current day does not stay failed: a toggle rewrites it to `active` or `completed`. */
  lemma ToggleOverwritesFailed(tb: Tables, cur: int, taskId: int, b: bool, i: nat)
    requires i < |tb.days| && tb.days[i].id == cur && tb.days[i].status == Failed
    ensures Toggle(tb, cur, taskId, b).days[i].status in {Active, Completed}
  {
    ToggleEffect(tb, cur, taskId, b);
  }

  /**
   * The seeding scenario: on a fresh table, completing one of day 1's tasks leaves
   * day 1 active (six are still open), and no other day changes.
   */
  lemma FirstToggleKeepsDayActive(start: int, firstId: int, j: nat)
    requires j < TasksPerDay
    ensures var tb := Tables(SeedDays(start), SeedTasks(firstId));
      var r := Toggle(tb, 1, firstId + j, false);
      r.days[0].status == Active && forall i :: 1 <= i < |tb.days| ==> r.days[i] == tb.days[i]
  {
    var tb := Tables(SeedDays(start), SeedTasks(firstId));
    SeedDaysShape(start);
    SeedTasksShape(start, firstId);
    var r := Toggle(tb, 1, firstId + j, false);
    var other := if j == 0 then 1 else 0;
    assert tb.tasks[other].id == firstId + other && tb.tasks[other].id != firstId + j;
    SeedTasksUpToShape(firstId, ChallengeDays);
    assert r.tasks[other] == tb.tasks[other] && r.tasks[other].dayId == 1 && !r.tasks[other].completed;
    assert r.tasks[other] in r.tasks;
  }

  lemma {:induction false} NotesReadBack(ds: seq<Day>, dayId: int, n: string)
    ensures FindDay(SetDayNotes(ds, dayId, n), dayId) ==
      if dayId in DayIds(ds) then Some(FindDay(ds, dayId).value.(notes := Some(n))) else None
  {
    if ds != [] {
      NotesReadBack(ds[1..], dayId, n);
      var once := SetDayNotes(ds, dayId, n);
      assert once[1..] == SetDayNotes(ds[1..], dayId, n);
      assert DayIds(ds) == {ds[0].id} + DayIds(ds[1..]);
    }
  }

  /**
   * Saving `n` for an existing day and reading it back yields `n`, except that `''`
   * reads back as null; for a day with no row the read is null.
   */
  lemma SaveThenGet(ds: seq<Day>, dayId: int, n: string)
    ensures JournalOf(SetDayNotes(ds, dayId, n), dayId) ==
      if n != "" && dayId in DayIds(ds) then Some(n) else None
  {
    NotesReadBack(ds, dayId, n);
  }

  /** Saving notes touches only the `notes` of the rows of that day. */
  lemma SaveTouchesOnlyNotes(ds: seq<Day>, dayId: int, n: string)
    ensures forall i :: 0 <= i < |ds| ==>
      && SetDayNotes(ds, dayId, n)[i].(notes := ds[i].notes) == ds[i]
      && (ds[i].id != dayId ==> SetDayNotes(ds, dayId, n)[i] == ds[i])
  {
  }
}
