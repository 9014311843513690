/** The calendar page (`CalendarView`): the subjects offered in its
    selects, the due date of a task as the browser reads it, the three
    filters, the 42-cell month grid, the list of the next three deliveries,
    and the view's own state: the displayed month, the selected day, the
    create-task form and the filters. */
module Calendar {
  import opened Common
  import opened Ordering
  import opened Dates
  import opened Tasks
  import opened Groups

  const NO_SUBJECT_VALUE := "__NONE__"
  const NO_GROUP_VALUE := "__NO_GROUP__"
  const MS_PER_DAY := 86400000

  /** A date that exists: what a `Date` object that is not `NaN` denotes. */
  type ValidDate = d: Date | Valid(d) witness Date(1970, 1, 1)

  // ---------------------------------------------------------------------
  // Subjects offered by the selects
  // ---------------------------------------------------------------------

  /** What `availableMaterias` adds for a task: its trimmed subject, unless
      there is none or it is blank. */
  function TrimmedMateria(t: Task): (m: Option<string>)
    ensures m.Some? ==> m.value != "" && Trim(m.value) == m.value
    ensures m.Some? <==> t.materia.Some? && !IsBlank(t.materia.value)
  {
    if t.materia.Some? && Trim(t.materia.value) != "" then
      TrimIdempotent(t.materia.value);
      Some(Trim(t.materia.value))
    else None
  }

  /** `availableMaterias`: the trimmed subjects of the tasks, each once,
      in increasing order. */
  method AvailableMaterias(tasks: seq<Task>) returns (r: seq<string>)
    ensures StrictlySorted(r)
    ensures forall m :: m in r <==> exists t :: t in tasks && TrimmedMateria(t) == Some(m)
    ensures forall m :: m in r ==> m != "" && Trim(m) == m
  {
    var seen := CollectKeys(tasks, TrimmedMateria);
    r := SortStrings(seen);
    SortedCollected(tasks, TrimmedMateria, seen, r);
  }


  // ---------------------------------------------------------------------
  // The due date of a task
  // ---------------------------------------------------------------------

  /** `s.replace(/-/g, '/')` */
  function ReplaceDashes(s: string): (r: string)
    ensures |r| == |s|
    ensures forall i :: 0 <= i < |s| ==> r[i] == if s[i] == '-' then '/' else s[i]
  {
    if s == [] then [] else [if s[0] == '-' then '/' else s[0]] + ReplaceDashes(s[1..])
  }

  /** `YYYY/MM/DD`, the text `taskDate` hands to `new Date`. */
  function SlashKey(d: Date): (s: string)
    requires Valid(d) && 0 <= d.year <= 9999
  {
    Pad4(d.year) + "/" + Pad2(d.month) + "/" + Pad2(d.day)
  }

  /** `new Date(text)` is left to the browser; what the calendar relies on
      is that `YYYY/MM/DD` is read as that day. */
  ghost predicate ReadsSlashDates(parse: string -> Option<Date>) {
    forall d :: Valid(d) && 0 <= d.year <= 9999 ==> parse(SlashKey(d)) == Some(d)
  }

  /** `taskDate`: no date for a missing or empty due date; otherwise the
      due date with its dashes turned into slashes, as the browser reads
      it. A reading that is not a real day stands for an invalid `Date`
      and gives no date either. */
  function TaskDate(t: Task, parse: string -> Option<Date>): (r: Option<Date>)
    ensures r.Some? ==> Valid(r.value)
    ensures r.Some? ==> t.fechaEntrega.Some? && t.fechaEntrega.value != ""
  {
    match t.fechaEntrega
    case None => None
    case Some(s) =>
      if s == "" then None
      else match parse(ReplaceDashes(s))
        case Some(d) => if Valid(d) then Some(d) else None
        case None => None
  }

  /** A due date written `YYYY-MM-DD`, as the date input writes it, is
      read as that very day. */
  lemma TaskDateOfIsoKey(t: Task, d: Date, parse: string -> Option<Date>)
    requires ReadsSlashDates(parse)
    requires Valid(d) && 0 <= d.year <= 9999
    requires t.fechaEntrega == Some(IsoKey(d))
    ensures TaskDate(t, parse) == Some(d)
  {
    var s := IsoKey(d);
    var y, m, dd := Pad4(d.year), Pad2(d.month), Pad2(d.day);
    forall i | 0 <= i < 10 ensures ReplaceDashes(s)[i] == SlashKey(d)[i] {
      if i < 4 {
        assert s[i] == y[i];
      } else if 5 <= i < 7 {
        assert s[i] == m[i - 5];
      } else if 8 <= i {
        assert s[i] == dd[i - 8];
      }
    }
    assert ReplaceDashes(s) == SlashKey(d);
  }

  // ---------------------------------------------------------------------
  // The filters
  // ---------------------------------------------------------------------

  /** The three filter selects: `"all"` turns a filter off. */
  datatype Filters = Filters(materia: string, estado: string, group: string)

  const NoFilters := Filters("all", "all", "all")

  /** `taskMatchesFilters` */
  predicate Matches(t: Task, f: Filters) {
    (f.materia == "all" || t.materia.GetOr("") == f.materia)
    && !(f.estado == "pending" && t.completada)
    && !(f.estado == "completed" && !t.completada)
    && (f.group == "all" || t.groupId.GetOr(NO_GROUP_VALUE) == f.group)
  }

  /** What each filter setting lets through. The no-subject choice (the
      empty materia filter) and the no-group choice match a task whose
      field is missing, and also one whose field holds the placeholder
      itself. Turning a filter off never drops a task. */
  lemma FilterCases(t: Task, f: Filters)
    ensures Matches(t, NoFilters)
    ensures f.estado == "pending" && t.completada ==> !Matches(t, f)
    ensures f.estado == "completed" && !t.completada ==> !Matches(t, f)
    ensures Matches(t, NoFilters.(estado := "pending")) <==> !t.completada
    ensures Matches(t, NoFilters.(estado := "completed")) <==> t.completada
    ensures Matches(t, NoFilters.(group := NO_GROUP_VALUE))
            <==> t.groupId == None || t.groupId == Some(NO_GROUP_VALUE)
    ensures Matches(t, NoFilters.(materia := "")) <==> t.materia == None || t.materia == Some("")
    ensures Matches(t, f) ==> Matches(t, f.(materia := "all"))
                              && Matches(t, f.(estado := "all"))
                              && Matches(t, f.(group := "all"))
  {
  }

  /** The subject select's value: the no-subject item stands for `""`. */
  function SubjectChoice(v: string): (m: string)
    ensures v != NO_SUBJECT_VALUE ==> m == v
    ensures v == NO_SUBJECT_VALUE ==> m == ""
  {
    if v == NO_SUBJECT_VALUE then "" else v
  }

  // ---------------------------------------------------------------------
  // The month grid
  // ---------------------------------------------------------------------

  /** `groupNameById`: every id of a group is a key, and nothing else. */
  function GroupNames(groups: seq<Group>): (names: map<string, string>)
    ensures forall g :: g in groups ==> g.id in names
    ensures forall id :: id in names ==> exists g :: g in groups && g.id == id
  {
    if groups == [] then map[]
    else
      var init := groups[..|groups| - 1];
      var last := groups[|groups| - 1];
      assert groups == init + [last];
      GroupNames(init)[last.id := last.name]
  }

  /** A later `set` of the same id wins: the name kept is that of the last
      group with the id. */
  lemma {:induction false} LastNameWins(groups: seq<Group>, i: int)
    requires 0 <= i < |groups|
    requires forall j :: i < j < |groups| ==> groups[j].id != groups[i].id
    ensures GroupNames(groups)[groups[i].id] == groups[i].name
    decreases |groups|
  {
    if i < |groups| - 1 {
      LastNameWins(groups[..|groups| - 1], i);
    }
  }

  /** A task of a cell, with the name of its group when it has one. */
  datatype CalendarTask = CalendarTask(task: Task, groupName: Option<string>)

  /** `task.groupId ? groupNameById.get(task.groupId) : undefined` */
  function GroupName(t: Task, names: map<string, string>): (n: Option<string>)
    ensures n.Some? <==> t.groupId.Some? && t.groupId.value != "" && t.groupId.value in names
    ensures n.Some? ==> n.value == names[t.groupId.value]
  {
    if t.groupId.Some? && t.groupId.value != "" && t.groupId.value in names then
      Some(names[t.groupId.value])
    else None
  }

  /** Each task paired with its group name. */
  function WithGroupNames(ts: seq<Task>, names: map<string, string>): (r: seq<CalendarTask>)
    ensures |r| == |ts|
    ensures forall i :: 0 <= i < |ts| ==> r[i] == CalendarTask(ts[i], GroupName(ts[i], names))
  {
    if ts == [] then [] else [CalendarTask(ts[0], GroupName(ts[0], names))] + WithGroupNames(ts[1..], names)
  }

  /** The filter a cell applies: due that day and through the filters. */
  function DueThatDay(day: Date, f: Filters, parse: string -> Option<Date>): Task -> bool {
    (t: Task) => TaskDate(t, parse) == Some(day) && Matches(t, f)
  }

  /** The tasks of the cell for `day`, in the order of the task list. */
  function DayTasks(tasks: seq<Task>, day: Date, f: Filters, names: map<string, string>,
                    parse: string -> Option<Date>): seq<CalendarTask>
  {
    WithGroupNames(Filter(tasks, DueThatDay(day, f, parse)), names)
  }

  /** A task is in a day's cell exactly when its due date is read as that
      day and it passes the filters; a task without a readable due date is
      in no cell. */
  lemma DayTasksExact(tasks: seq<Task>, day: Date, f: Filters, names: map<string, string>,
                      parse: string -> Option<Date>, t: Task)
    ensures (exists c :: c in DayTasks(tasks, day, f, names, parse) && c.task == t)
            <==> t in tasks && TaskDate(t, parse) == Some(day) && Matches(t, f)
    ensures TaskDate(t, parse) == None ==> forall c :: c in DayTasks(tasks, day, f, names, parse) ==> c.task != t
  {
    var kept := Filter(tasks, DueThatDay(day, f, parse));
    var cells := DayTasks(tasks, day, f, names, parse);
    if t in tasks && TaskDate(t, parse) == Some(day) && Matches(t, f) {
      var i :| 0 <= i < |kept| && kept[i] == t;
      assert cells[i].task == t;
    }
    forall c | c in cells ensures c.task in kept {
      var i :| 0 <= i < |cells| && cells[i] == c;
    }
  }

  /** The Sunday on or before the 1st of `d`'s month: the first cell. */
  function GridStart(d: Date): (s: Date)
    requires Valid(d)
    ensures Valid(s) && Weekday(s) == 0
    ensures var first := Date(d.year, d.month, 1);
            DayNumber(first) - 6 <= DayNumber(s) <= DayNumber(first)
  {
    var first := Date(d.year, d.month, 1);
    BackToSunday(first);
    AddDays(first, -Weekday(first))
  }

  /** One cell of the month grid. */
  datatype Cell = Cell(date: Date, isToday: bool, isSelected: bool, isOtherMonth: bool,
                       tasks: seq<CalendarTask>)

  /** No two cells of a grid of consecutive days share a date, so at most
      one of them is today or the selected day. */
  lemma GridDatesDistinct(days: seq<Cell>, start: Date, i: int, j: int)
    requires Valid(start)
    requires forall k :: 0 <= k < |days| ==>
               Valid(days[k].date) && DayNumber(days[k].date) == DayNumber(start) + k
    requires 0 <= i < j < |days|
    ensures days[i].date != days[j].date
  {
  }

  /** Every day of the displayed month has its cell: the month starts in
      the first week of the grid and has at most 31 days. */
  lemma MonthInGrid(days: seq<Cell>, d: Date, day: Date)
    requires Valid(d) && |days| == 42
    requires forall k :: 0 <= k < 42 ==>
               Valid(days[k].date) && DayNumber(days[k].date) == DayNumber(GridStart(d)) + k
    requires Valid(day) && day.year == d.year && day.month == d.month
    ensures exists k :: 0 <= k < 42 && days[k].date == day
  {
    var first := Date(d.year, d.month, 1);
    var k := DayNumber(day) - DayNumber(GridStart(d));
    assert DayNumber(day) == DayNumber(first) + day.day - 1;
    assert 0 <= k < 42;
    DayNumberInjective(days[k].date, day);
  }

  // ---------------------------------------------------------------------
  // Upcoming deliveries
  // ---------------------------------------------------------------------

  /** `getTime()` of a date's midnight, in milliseconds since the epoch. */
  function Time(d: ValidDate): int {
    DayNumber(d) * MS_PER_DAY
  }

  /** A task with its due date (`{...t, _date: taskDate(t)}`). */
  datatype Dated = Dated(task: Task, date: ValidDate)

  /** The tasks the upcoming list draws from, in list order: a readable
      due date, not completed, due at or after `now`, and through the
      filters. */
  function Eligible(tasks: seq<Task>, f: Filters, parse: string -> Option<Date>, now: int): (r: seq<Dated>)
    ensures |r| <= |tasks|
    ensures forall u :: u in r ==>
              u.task in tasks && TaskDate(u.task, parse).Some? && TaskDate(u.task, parse).value == u.date
              && !u.task.completada
              && Time(u.date) >= now && Matches(u.task, f)
    ensures forall t :: t in tasks && TaskDate(t, parse).Some? && !t.completada
                        && Time(TaskDate(t, parse).value) >= now && Matches(t, f)
                        ==> Dated(t, TaskDate(t, parse).value) in r
  {
    if tasks == [] then []
    else
      var rest := Eligible(tasks[1..], f, parse, now);
      var t := tasks[0];
      var d := TaskDate(t, parse);
      assert forall x :: x in tasks <==> x == t || x in tasks[1..] by {
        assert tasks == [t] + tasks[1..];
      }
      if d.Some? && !t.completada && Time(d.value) >= now && Matches(t, f) then
        [Dated(t, d.value)] + rest
      else rest
  }

  /** Selecting distributes over concatenation: the eligible tasks keep
      the order they have in the list. */
  lemma {:induction false} EligibleConcat(a: seq<Task>, b: seq<Task>, f: Filters, parse: string -> Option<Date>, now: int)
    ensures Eligible(a + b, f, parse, now) == Eligible(a, f, parse, now) + Eligible(b, f, parse, now)
  {
    if a == [] {
      assert a + b == b;
    } else {
      assert (a + b)[0] == a[0];
      assert (a + b)[1..] == a[1..] + b;
      EligibleConcat(a[1..], b, f, parse, now);
    }
  }

  function ByTime(u: Dated): int {
    Time(u.date)
  }

  /** The upcoming list: at most three eligible tasks, earliest first, and
      no eligible task left out is due before the last one shown. Because
      a due date is read as midnight, a task due today is shown only when
      `now` is exactly midnight. */
  function Upcoming(tasks: seq<Task>, f: Filters, parse: string -> Option<Date>, now: int): (r: seq<Dated>)
    ensures |r| <= 3
    ensures forall i :: 0 <= i < |r| ==>
              r[i].task in tasks
              && TaskDate(r[i].task, parse).Some? && TaskDate(r[i].task, parse).value == r[i].date
              && !r[i].task.completada && Time(r[i].date) >= now && Matches(r[i].task, f)
    ensures forall i, j :: 0 <= i < j < |r| ==> Time(r[i].date) <= Time(r[j].date)
    ensures multiset(r) <= multiset(Eligible(tasks, f, parse, now))
    ensures forall u :: u in Eligible(tasks, f, parse, now) && u !in r ==>
              |r| == 3 && Time(r[2].date) <= Time(u.date)
  {
    var all := Eligible(tasks, f, parse, now);
    EarliestThree(all);
    TopN(all, ByTime, 3)
  }

  /** What the sort by time and the cut to three keep of the eligible
      tasks. */
  lemma EarliestThree(all: seq<Dated>)
    ensures var r := TopN(all, ByTime, 3);
            && (forall i :: 0 <= i < |r| ==> r[i] in all)
            && (forall i, j :: 0 <= i < j < |r| ==> Time(r[i].date) <= Time(r[j].date))
            && (forall u :: u in all && u !in r ==> |r| == 3 && Time(r[2].date) <= Time(u.date))
            && multiset(r) <= multiset(all)
  {
    var r := TopN(all, ByTime, 3);
    forall i | 0 <= i < |r| ensures r[i] in all {
      assert r[i] in multiset(r);
    }
    forall u | u in all && u !in r ensures |r| == 3 && Time(r[2].date) <= Time(u.date) {
      assert multiset(r)[u] == 0;
    }
  }

  /** Tasks due at the same moment are shown in list order: of the
      eligible tasks due at time `k`, those shown are the first ones. */
  lemma UpcomingKeepsListOrder(tasks: seq<Task>, f: Filters, parse: string -> Option<Date>, now: int, k: int)
    ensures var shown := OfRank(Upcoming(tasks, f, parse, now), ByTime, k);
            var due := OfRank(Eligible(tasks, f, parse, now), ByTime, k);
            |shown| <= |due| && shown == due[..|shown|]
  {
    TopNKeepsTieOrder(Eligible(tasks, f, parse, now), ByTime, 3, k);
  }

  // ---------------------------------------------------------------------
  // The create form
  // ---------------------------------------------------------------------

  /** The four text fields of the create-task form. */
  datatype TaskForm = TaskForm(title: string, description: string, materia: string, fechaEntrega: string)

  const EmptyForm := TaskForm("", "", "", "")

  /** `handleCreateTask` goes ahead only with a non-blank title and a due
      date. */
  predicate Submittable(f: TaskForm) {
    !IsBlank(f.title) && f.fechaEntrega != ""
  }

  /** The task `handleCreateTask` hands to `addTask`: title and
      description trimmed, an empty description or subject left out. */
  function FormInput(f: TaskForm): TaskInput {
    TaskInput(Trim(f.title), if Trim(f.description) == "" then None else Some(Trim(f.description)),
              if f.materia == "" then None else Some(f.materia), Some(f.fechaEntrega),
              None, None, None, None, None)
  }

  /** A task created from the form has a non-empty trimmed title, is
      pending with 50 points and no group, and is due on the form's date. */
  lemma CreatedTask(f: TaskForm, freshId: string)
    requires Submittable(f)
    ensures var t := NewTask(FormInput(f), freshId);
            t.id == freshId && t.title != "" && Trim(t.title) == t.title
            && !t.completada && t.points == 50 && t.groupId == None
            && t.fechaEntrega == Some(f.fechaEntrega)
            && (t.description.Some? ==> t.description.value != "")
            && (t.materia.Some? <==> f.materia != "")
  {
    TrimIdempotent(f.title);
  }

  // ---------------------------------------------------------------------
  // The view
  // ---------------------------------------------------------------------

  class CalendarView {
    var currentDate: Date
    var selectedDate: Option<Date>
    var isCreateModalOpen: bool
    var form: TaskForm
    var filters: Filters
    const store: TaskStore

    /** The displayed month is a real date. */
    ghost predicate Shows()
      reads this
    {
      Valid(currentDate)
    }

    /** First render: today's month, nothing selected, an empty closed
        form, every filter off. */
    constructor (store: TaskStore, today: Date)
      requires Valid(today)
      ensures Shows() && this.store == store
      ensures currentDate == today && selectedDate == None && !isCreateModalOpen
      ensures form == EmptyForm && filters == NoFilters
    {
      this.store := store;
      currentDate := today;
      selectedDate := None;
      isCreateModalOpen := false;
      form := EmptyForm;
      filters := NoFilters;
    }

    /** The cell for `day` as `getMonthData` builds it. */
    ghost function CellOf(day: Date, groups: seq<Group>, today: Date, parse: string -> Option<Date>): Cell
      reads this, store
    {
      Cell(day, day == today, selectedDate == Some(day), day.month != currentDate.month,
           DayTasks(store.tasks, day, filters, GroupNames(groups), parse))
    }

    /** `getMonthData`: 42 cells for consecutive days from the Sunday on or
        before the 1st of the displayed month. `isOtherMonth` compares the
        month number only. */
    method GetMonthData(groups: seq<Group>, today: Date, parse: string -> Option<Date>)
      returns (days: seq<Cell>)
      requires Shows()
      ensures |days| == 42
      ensures forall i :: 0 <= i < 42 ==>
                Valid(days[i].date) && DayNumber(days[i].date) == DayNumber(GridStart(currentDate)) + i
      ensures forall i :: 0 <= i < 42 ==> days[i] == CellOf(days[i].date, groups, today, parse)
    {
      var start := GridStart(currentDate);
      var names := GroupNames(groups);
      var current := start;
      days := [];
      for i := 0 to 42
        invariant |days| == i
        invariant Valid(current) && DayNumber(current) == DayNumber(start) + i
        invariant forall k :: 0 <= k < i ==>
                    Valid(days[k].date) && DayNumber(days[k].date) == DayNumber(start) + k
        invariant forall k :: 0 <= k < i ==> days[k] == CellOf(days[k].date, groups, today, parse)
      {
        var cell := Cell(current, current == today, selectedDate == Some(current),
                         current.month != currentDate.month,
                         DayTasks(store.tasks, current, filters, names, parse));
        days := days + [cell];
        current := NextDay(current);
      }
    }

    /** `goToPreviousMonth`: the 1st of the month before. */
    method GoToPreviousMonth()
      requires Shows()
      modifies this
      ensures Shows() && currentDate == PrevMonthStart(old(currentDate))
      ensures currentDate.year * 12 + currentDate.month == old(currentDate.year * 12 + currentDate.month) - 1
      ensures selectedDate == old(selectedDate) && filters == old(filters)
      ensures form == old(form) && isCreateModalOpen == old(isCreateModalOpen)
    {
      currentDate := PrevMonthStart(currentDate);
    }

    /** `goToNextMonth`: the 1st of the month after. */
    method GoToNextMonth()
      requires Shows()
      modifies this
      ensures Shows() && currentDate == NextMonthStart(old(currentDate))
      ensures currentDate.year * 12 + currentDate.month == old(currentDate.year * 12 + currentDate.month) + 1
      ensures selectedDate == old(selectedDate) && filters == old(filters)
      ensures form == old(form) && isCreateModalOpen == old(isCreateModalOpen)
    {
      currentDate := NextMonthStart(currentDate);
    }

    /** The "Hoy" button. */
    method GoToToday(today: Date)
      requires Valid(today)
      modifies this
      ensures Shows() && currentDate == today
      ensures selectedDate == old(selectedDate) && filters == old(filters)
      ensures form == old(form) && isCreateModalOpen == old(isCreateModalOpen)
    {
      currentDate := today;
    }

    /** `handleDateClick`: the day becomes selected and the form opens with
        that day as its due date. */
    method HandleDateClick(date: Date)
      requires Valid(date) && 0 <= date.year <= 9999
      modifies this
      ensures selectedDate == Some(date) && form == old(form).(fechaEntrega := IsoKey(date))
      ensures isCreateModalOpen
      ensures currentDate == old(currentDate) && filters == old(filters)
    {
      selectedDate := Some(date);
      form := form.(fechaEntrega := IsoKey(date));
      isCreateModalOpen := true;
    }

    /** The subject filter's select. */
    method SetFilterMateria(v: string)
      modifies this
      ensures filters == old(filters).(materia := SubjectChoice(v))
      ensures currentDate == old(currentDate) && selectedDate == old(selectedDate)
      ensures form == old(form) && isCreateModalOpen == old(isCreateModalOpen)
    {
      filters := filters.(materia := SubjectChoice(v));
    }

    /** The form's subject select. */
    method SetMateria(v: string)
      modifies this
      ensures form == old(form).(materia := SubjectChoice(v))
      ensures currentDate == old(currentDate) && selectedDate == old(selectedDate) && filters == old(filters)
      ensures isCreateModalOpen == old(isCreateModalOpen)
    {
      form := form.(materia := SubjectChoice(v));
    }

    /** `handleCreateTask`: nothing happens without a title or a due date;
        otherwise the task is added and the form is cleared and closed. */
    method HandleCreateTask(freshId: string)
      modifies this, store, store.storage
      ensures !Submittable(old(form)) ==>
                store.tasks == old(store.tasks) && store.storage.entries == old(store.storage.entries)
                && form == old(form) && isCreateModalOpen == old(isCreateModalOpen)
      ensures Submittable(old(form)) ==>
                store.tasks == old(store.tasks) + [NewTask(FormInput(old(form)), freshId)]
                && store.storage.entries == old(store.storage.entries)[TASKS_KEY := store.json.stringify(store.tasks)]
                && store.Saved() && form == EmptyForm && !isCreateModalOpen
      ensures currentDate == old(currentDate) && selectedDate == old(selectedDate) && filters == old(filters)
    {
      if !Submittable(form) {
        return;
      }
      store.AddTask(FormInput(form), freshId);
      form := EmptyForm;
      isCreateModalOpen := false;
    }
  }

  /** Clicking a day and creating a task there puts the task on that day:
      with every filter off, it shows in the day's cell. */
  lemma CreatedOnClickedDay(tasks: seq<Task>, input: TaskInput, freshId: string, d: Date,
                            names: map<string, string>, parse: string -> Option<Date>)
    requires ReadsSlashDates(parse)
    requires Valid(d) && 0 <= d.year <= 9999
    requires input.fechaEntrega == Some(IsoKey(d))
    ensures var t := NewTask(input, freshId);
            exists c :: c in DayTasks(tasks + [t], d, NoFilters, names, parse) && c.task == t
  {
    var t := NewTask(input, freshId);
    TaskDateOfIsoKey(t, d, parse);
    FilterCases(t, NoFilters);
    DayTasksExact(tasks + [t], d, NoFilters, names, parse, t);
  }
}
