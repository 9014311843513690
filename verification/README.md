# TaskUp core, modelled in Dafny

TaskUp is a browser application for students. It keeps a list of academic
tasks (*tareas*), each with an optional subject (*materia*), due date
(*fechaEntrega*) and study group. It also keeps the groups the student
belongs to, a points leaderboard of participants, and the signed-in user.
Each of these four lists lives in a React context ("store"):

- the context holds the list in memory;
- a loader fills the list from `localStorage` on mount;
- a save effect writes the list back after every change.

The screens read the stores and call their operations:

- the task list with its add/edit form;
- a month calendar with filters and an "upcoming" panel;
- a subjects navigator;
- a groups screen;
- a statistics page;
- the sign-in and sign-up forms.

This project models those stores and screens:

- **Stores** are Dafny classes whose list field is reassigned by each
  operation. They share one `LocalStorage` object, a map from keys to
  strings.
- **Screens** are classes holding the screen's React state. Their handlers
  are methods that call the store methods.
- **Derived values** (`useMemo`, filters, sorting, counting) are functions.
  Counting or bucketing loops that the source writes out are methods with
  loop invariants.

Each method's `ensures` gives the new state in terms of a specification
function. Lemmas then prove what those functions promise:

- reload after save gives the list back;
- toggling twice is the identity;
- updates are idempotent;
- ids stay unique;
- sorted output is a permutation, and the top-N cut is correct;
- the calendar grid covers the month;
- the statistics totals add up.

Modules, one per file:

| module | file | models |
|---|---|---|
| `Common` | common.dfy | `Option`, `filter`, `map`, `split`, `trim`, `toLowerCase` |
| `Ordering` | ordering.dfy | `Array.prototype.sort` as a stable sort, `slice(0, n)`, string order |
| `Storage` | storage.dfy | `localStorage`, an abstract JSON codec, the decode-or-default loader |
| `Dates` | dates.dfy | the civil-date arithmetic the screens do with `Date` |
| `Tasks` | tasks.dfy | `TasksContext` |
| `Groups` | groups.dfy | `GroupsContext` |
| `Participants` | participants.dfy | `ParticipantsContext` |
| `Auth` | auth.dfy | `AuthContext` |
| `Analytics` | analytics.dfy | `AnalyticsView` |
| `Calendar` | calendar.dfy | `CalendarView` |
| `Gamification` | gamification.dfy | `GamificationView` |
| `Subjects` | subjects.dfy | `SubjectNavigator` |
| `TasksScreen` | tasks_view.dfy | `TasksView` |
| `Login` | login.dfy | `Login` |
| `Register` | register.dfy | `Register` |

## Model

| member | source | states |
|---|---|---|
| Storage.LocalStorage.Get | src/contexts/TasksContext.tsx:43 | `getItem` gives the stored string exactly when the key is present, and `null` otherwise |
| Storage.LocalStorage.SetItem | src/contexts/TasksContext.tsx:73 | `setItem` overwrites one key and leaves every other key as it was |
| Storage.LocalStorage.RemoveItem | src/contexts/TasksContext.tsx:52 | `removeItem` drops one key and nothing else |
| Storage.LoadOrSeed | src/contexts/TasksContext.tsx:40-65 | The loader returns the seed for a value that is absent, `""` or `"[]"`. For any other stored text it returns exactly the parsed array when the text parses to an array, and otherwise the seed with the key removed. It never touches another key |
| Storage.SaveThenLoad | src/contexts/TasksContext.tsx:40-78 | Saving a list and loading it again gives the list back, except that the empty list comes back as the seed |
| Tasks.NewTask | src/contexts/TasksContext.tsx:83-93 | The new task copies the five content fields and gets the fresh id, whatever id the caller passed. Completion defaults to false and points to 50. No priority is kept |
| Tasks.Without | src/contexts/TasksContext.tsx:100-101 | After delete, exactly the tasks with another id remain, and the list is no longer |
| Tasks.WithoutConcat | src/contexts/TasksContext.tsx:101 | Deletion keeps the order of the remaining tasks on any split of the list |
| Tasks.WithoutUnknown | src/contexts/TasksContext.tsx:101 | Deleting an id no task has changes nothing |
| Tasks.Toggled | src/contexts/TasksContext.tsx:106-111 | Toggle flips `completada` on exactly the tasks with that id. Every other field and every other task is kept |
| Tasks.ToggledTwice | src/contexts/TasksContext.tsx:106-111 | Toggling the same id twice restores the list |
| Tasks.Merge | src/contexts/TasksContext.tsx:119 | `{...task, ...updates}` keeps the id. Each of the eight other fields takes the patch's value when the patch sets it and keeps the task's otherwise, so an empty patch changes nothing |
| Tasks.MergeIdempotent | src/contexts/TasksContext.tsx:119 | Merging a patch twice is merging it once |
| Tasks.Updated | src/contexts/TasksContext.tsx:116-121 | Update merges the patch into exactly the tasks with that id and keeps the rest |
| Tasks.UpdatedTwice | src/contexts/TasksContext.tsx:116-121 | Repeating an update changes nothing more |
| Tasks.OperationsKeepIdsUnique | src/contexts/TasksContext.tsx:83-121 | Add with a fresh id, toggle, update and delete all keep task ids unique |
| Tasks.TaskStore.constructor | src/contexts/TasksContext.tsx:40-78 | Mounting loads with the two sample tasks as seed, then the save effect writes the list back |
| Tasks.TaskStore.Save | src/contexts/TasksContext.tsx:70-78 | The save effect stores the list's text under `taskup_tasks_v1` |
| Tasks.TaskStore.AddTask | src/contexts/TasksContext.tsx:83-97 | The new task is appended last, the others are unchanged, and the list is saved |
| Tasks.TaskStore.DeleteTask | src/contexts/TasksContext.tsx:100-103 | The list becomes `Without(old, id)` and is saved |
| Tasks.TaskStore.ToggleComplete | src/contexts/TasksContext.tsx:106-113 | The list becomes `Toggled(old, id)` and is saved |
| Tasks.TaskStore.UpdateTask | src/contexts/TasksContext.tsx:116-122 | The list becomes `Updated(old, id, patch)` and is saved |
| Tasks.ReloadAfterSave | src/contexts/TasksContext.tsx:40-78 | On the next visit the saved tasks come back, or the two sample tasks when the saved list was empty |
| Groups.NewGroup | src/contexts/GroupsContext.tsx:84-88 | A new group has a fresh id, no tasks, and the given name, description, creator and key (untrimmed) |
| Groups.FindGroup | src/contexts/GroupsContext.tsx:96 | `find` returns the first group whose id equals the query or whose lower-cased name equals the lower-cased query. It returns nothing when no group matches |
| Groups.JoinGroup | src/contexts/GroupsContext.tsx:94-111 | Join succeeds exactly when some group matches and the first matching group has exactly that key |
| Groups.JoinIgnoresCase | src/contexts/GroupsContext.tsx:96 | Unless the text is a group id, a query and its lower-case form join alike |
| Groups.GroupStore.constructor | src/contexts/GroupsContext.tsx:34-74 | Mounting loads with the empty seed and saves |
| Groups.GroupStore.Save | src/contexts/GroupsContext.tsx:67-74 | The save effect stores the text under `taskup_groups_v1` |
| Groups.GroupStore.AddGroup | src/contexts/GroupsContext.tsx:79-91 | A blank key is refused and nothing changes. Otherwise the new group goes first, the others follow in order, and the list is saved |
| Groups.ReloadAfterSave | src/contexts/GroupsContext.tsx:34-74 | The saved groups come back on the next visit |
| Participants.NewParticipant | src/contexts/ParticipantsContext.tsx:46 | A new participant has a fresh id, 0 points, and the given name, school and avatar |
| Participants.Removed | src/contexts/ParticipantsContext.tsx:50-52 | Exactly the participants with another id remain |
| Participants.RemovedFacts | src/contexts/ParticipantsContext.tsx:51 | Removing an unknown id changes nothing, and removal keeps the order on any split |
| Participants.Clamp | src/contexts/ParticipantsContext.tsx:56 | `Math.max(0, n)` is non-negative, is at least n, and equals n when n >= 0 |
| Participants.PointsChanged | src/contexts/ParticipantsContext.tsx:54-57 | Only the points of matching participants change, to `max(0, points + delta)` |
| Participants.ClampedAtZero | src/contexts/ParticipantsContext.tsx:56 | 5 points less 100 gives 0 |
| Participants.Sample | src/contexts/ParticipantsContext.tsx:60-66 | Three sample rows with 1240, 980 and 760 points and the given ids |
| Participants.Restored | src/contexts/ParticipantsContext.tsx:28-35 | The load effect adopts exactly the parsed array when a non-empty stored text parses to one. A missing or empty value, or one that is not an array, leaves the list empty |
| Participants.RestoreAfterSave | src/contexts/ParticipantsContext.tsx:28-43 | Every saved list comes back as it was, the empty one included |
| Participants.ParticipantStore.constructor | src/contexts/ParticipantsContext.tsx:26-43 | The list starts empty, the load effect restores the saved list, and the save effect stores it |
| Participants.ParticipantStore.Save | src/contexts/ParticipantsContext.tsx:37-43 | The save effect stores the text under `taskup_participants_v1` |
| Participants.ParticipantStore.AddParticipant | src/contexts/ParticipantsContext.tsx:45-48 | The new participant goes first, and the list is saved |
| Participants.ParticipantStore.RemoveParticipant | src/contexts/ParticipantsContext.tsx:50-52 | The list becomes `Removed(old, id)` and is saved |
| Participants.ParticipantStore.ChangePoints | src/contexts/ParticipantsContext.tsx:54-58 | The list becomes `PointsChanged(old, id, delta)` and is saved |
| Participants.ParticipantStore.LoadSample | src/contexts/ParticipantsContext.tsx:60-66 | The whole list is replaced by the three samples and saved |
| Participants.ParticipantStore.ResetAll | src/contexts/ParticipantsContext.tsx:68 | The list becomes empty and is saved |
| Auth.MergeUser | src/auth/AuthContext.tsx:61 | `{...prev, ...patch}`: each of the five fields takes the patch's value when the patch sets it and keeps the user's otherwise, so an empty patch changes nothing |
| Auth.MergeUserIdempotent | src/auth/AuthContext.tsx:61 | Applying a patch twice is applying it once |
| Auth.Restoring | src/auth/AuthContext.tsx:28-38 | An absent or empty value is ignored. A parsed value becomes the user. An unreadable value is discarded |
| Auth.RestoreAfterPersist | src/auth/AuthContext.tsx:28-56 | A persisted user is restored on the next visit. After logout nothing is restored |
| Auth.AuthStore.constructor | src/auth/AuthContext.tsx:25-26 | Nobody is signed in and the store is not ready |
| Auth.AuthStore.Load | src/auth/AuthContext.tsx:28-38 | After load the store is ready. An unreadable session is removed from storage |
| Auth.AuthStore.Persist | src/auth/AuthContext.tsx:40-44 | Storage holds the user's text, or no key for nobody, and mirrors the slot |
| Auth.AuthStore.Login | src/auth/AuthContext.tsx:46-48 | The user is signed in and stored |
| Auth.AuthStore.Register | src/auth/AuthContext.tsx:50-52 | Same as login; nothing else is checked |
| Auth.AuthStore.Logout | src/auth/AuthContext.tsx:54-56 | Nobody is signed in and the key is removed |
| Auth.AuthStore.UpdateProfile | src/auth/AuthContext.tsx:58-65 | Without a user nothing happens. With one, the merged user is set and stored. Mirroring is preserved |
| Login.DisplayName | src/components/Login.tsx:15 | The name as typed; else the e-mail before its first `@`; else "Estudiante". Never empty |
| Login.UserRecord | src/components/Login.tsx:13-19 | The id is `u_` plus the clock reading, level 1, 0 points, with the e-mail as typed |
| Login.LoginForm.constructor | src/components/Login.tsx:8-9 | Both inputs start empty |
| Login.LoginForm.Submit | src/components/Login.tsx:11-22 | The built record becomes the signed-in user and is stored |
| Register.RegisterForm.constructor | src/components/Register.tsx:8-9 | Both inputs start empty |
| Register.RegisterForm.Submit | src/components/Register.tsx:11-22 | The same record is handed to `register`, and it becomes the stored user |
| Common.BlankIffAllSpace | src/components/TasksView.tsx:22 | `!s.trim()` holds exactly when every character is white space |
| Common.TrimIdempotent | src/components/GamificationView.tsx:65 | Trimming twice is trimming once, so a key trimmed by the screen passes the store's check unchanged |
| Common.ToLower | src/contexts/GroupsContext.tsx:96 | `toLowerCase` keeps the length and lowers capitals character by character |
| Ordering.SortBy | src/components/AnalyticsView.tsx:56 | The sort by a numeric comparator gives a sorted permutation of the input |
| Ordering.SortByStable | src/components/AnalyticsView.tsx:56 | Elements with equal keys keep their relative order |
| Ordering.TopN | src/components/AnalyticsView.tsx:56-57 | Sort then `slice(0, n)` keeps min(n, length) elements in order, drawn from the input. Nothing left out ranks before the last one kept |
| Ordering.TopNKeepsTieOrder | src/components/AnalyticsView.tsx:56-57 | Ties are broken by position: of the elements of any one rank, those kept are the first ones of that rank in the input, in input order |
| Ordering.SortStrings | src/components/SubjectNavigator.tsx:28 | `sort()` on strings gives a sorted permutation |
| Ordering.StrictlySortedUnique | src/components/SubjectNavigator.tsx:28 | A strictly increasing list is determined by its members |
| Dates.AddDays | src/components/AnalyticsView.tsx:22-23 | `setDate(getDate() + n)` moves exactly n days, across month and year ends |
| Dates.NextDay | src/components/CalendarView.tsx:116 | The next day is a valid date one day later |
| Dates.Weekday | src/components/CalendarView.tsx:94 | `getDay()` is in 0..6 |
| Dates.BackToSunday | src/components/CalendarView.tsx:92-94 | Going back `getDay()` days lands on a Sunday within six days |
| Dates.PrevMonthStart | src/components/CalendarView.tsx:123 | `new Date(y, m - 1)` is the 1st of the previous month, rolling the year over |
| Dates.NextMonthStart | src/components/CalendarView.tsx:124 | `new Date(y, m + 1)` is the 1st of the next month |
| Dates.PrevNextMonth | src/components/CalendarView.tsx:123-124 | Back then forward (or forward then back) returns to the 1st of the month |
| Dates.IsoKey | src/components/AnalyticsView.tsx:24 | `toISOString().slice(0, 10)` is `YYYY-MM-DD` |
| Dates.ParseIsoKey | src/components/CalendarView.tsx:127 | The date input's `YYYY-MM-DD` text reads back as the same date |
| Dates.IsoKeyInjective | src/components/AnalyticsView.tsx:19-26 | Different days have different keys |
| Dates.DayNumberInjective | src/components/CalendarView.tsx:102 | Two dates are the same day exactly when their day numbers are equal |
| Analytics.WindowDay | src/components/AnalyticsView.tsx:21-23 | The i-th day of the window is 13 - i days before today |
| Analytics.WindowKeysDistinct | src/components/AnalyticsView.tsx:21-26 | The fourteen keys are distinct, so the map holds fourteen buckets |
| Analytics.WindowLabel | src/components/AnalyticsView.tsx:45 | The point label is the key without its `YYYY-` prefix |
| Analytics.DueKey | src/components/AnalyticsView.tsx:29-38 | A task has a key only with a non-empty due date, and every key has the `YYYY-MM-DD` shape |
| Analytics.DmyLandsOnIsoKey | src/components/AnalyticsView.tsx:32-34 | A `dd/mm/yyyy` date lands in the bucket of that day |
| Analytics.IsoLandsOnIsoKey | src/components/AnalyticsView.tsx:37 | A `YYYY-MM-DD` date lands in its own bucket |
| Analytics.SeedBuckets | src/components/AnalyticsView.tsx:19-26 | The seeding loop leaves one empty bucket per window day, oldest first |
| Analytics.Tally | src/components/AnalyticsView.tsx:28-43 | The tally loop leaves every bucket holding the count of tasks due that day and of those completed |
| Analytics.TallyStep | src/components/AnalyticsView.tsx:39-42 | One task changes at most the bucket of its own key |
| Analytics.ReadSeries | src/components/AnalyticsView.tsx:45 | The buckets are read out in insertion order |
| Analytics.TasksPerDay | src/components/AnalyticsView.tsx:18-46 | Fourteen points, each counting the tasks due that day and the completed ones. Completed never exceeds total, and the totals add up to at most the number of tasks |
| Analytics.SeriesFacts | src/components/AnalyticsView.tsx:39-42 | Over distinct keys each task is counted at most once |
| Analytics.CountSubjects | src/components/AnalyticsView.tsx:50-54 | The counting loop gives each label (`materia` or "Sin materia") its number of tasks, with labels in first-seen order |
| Analytics.Entries | src/components/AnalyticsView.tsx:55 | One `{name, value}` per label, in order |
| Analytics.TasksBySubject | src/components/AnalyticsView.tsx:49-58 | At most six labels with the largest counts first. Each count is exact and no label appears twice. A label left out counts no more than the sixth one kept. The result is the top six of the first-seen-order entries |
| Analytics.SubjectTiesKeepFirstSeenOrder | src/components/AnalyticsView.tsx:55-57 | Labels with equal counts keep first-seen order: of the labels with any one count, those shown are the first ones seen |
| Analytics.TopFacts | src/components/AnalyticsView.tsx:55-57 | What sorting and cutting to six keeps of the exact counts |
| Analytics.TasksStatus | src/components/AnalyticsView.tsx:61-68 | Completed plus pending is the number of tasks |
| Analytics.DoneAndPending | src/components/AnalyticsView.tsx:62-63 | Every task is either completed or pending |
| Analytics.TopParticipants | src/components/AnalyticsView.tsx:71-73 | At most five participants, by points descending, drawn from the list. Anyone left out has no more points than the fifth one kept |
| Analytics.TopParticipantsKeepListOrder | src/components/AnalyticsView.tsx:71-73 | Participants with equal points keep list order: of those with any one score, the ones shown are the first ones in the list |
| Analytics.TotalPointsConcat | src/components/AnalyticsView.tsx:179 | The total is additive over any split |
| Analytics.TotalPointsFacts | src/components/AnalyticsView.tsx:179 | Adding a participant keeps the total, and the samples total 2980 |
| Analytics.Initials | src/components/AnalyticsView.tsx:112 | At most two characters and no space. A name that does not start with a space starts its initials with its first character |
| Analytics.InitialsOfOneWord | src/components/AnalyticsView.tsx:112 | A name without a space gives its first character, or nothing when empty |
| Analytics.InitialsOfFirstTwoWords | src/components/AnalyticsView.tsx:112 | A name with a space gives the first characters of the pieces before and after the first space. An empty piece (a leading or doubled space) gives nothing, and anything after a second space is ignored |
| Calendar.TrimmedMateria | src/components/CalendarView.tsx:55 | A subject is offered trimmed, and only when it is not blank |
| Calendar.AvailableMaterias | src/components/CalendarView.tsx:52-58 | The trimmed subjects, each once, strictly increasing |
| Calendar.ReplaceDashes | src/components/CalendarView.tsx:72 | Every `-` becomes `/` and nothing else changes |
| Calendar.TaskDate | src/components/CalendarView.tsx:70-77 | A date only for a non-empty due date, and always a real date |
| Calendar.TaskDateOfIsoKey | src/components/CalendarView.tsx:72-74 | A `YYYY-MM-DD` due date is read as that day |
| Calendar.FilterCases | src/components/CalendarView.tsx:79-87 | What each filter setting lets through. "all" passes everything. The pending and completed filters split by completion. The no-subject choice passes tasks without a subject |
| Calendar.SubjectChoice | src/components/CalendarView.tsx:166 | The no-subject item stands for `""` |
| Calendar.GroupNames | src/components/CalendarView.tsx:64-68 | Exactly the group ids are keys |
| Calendar.LastNameWins | src/components/CalendarView.tsx:66 | A later group with the same id wins |
| Calendar.GroupName | src/components/CalendarView.tsx:106 | A name is shown only for a non-empty group id present in the map |
| Calendar.WithGroupNames | src/components/CalendarView.tsx:104-107 | Each task is paired with its group name, in order |
| Calendar.DayTasksExact | src/components/CalendarView.tsx:99-103 | A task is in a day's cell exactly when its date is read as that day and it passes the filters |
| Calendar.GridStart | src/components/CalendarView.tsx:92-94 | The first cell is the Sunday on or before the 1st |
| Calendar.GridDatesDistinct | src/components/CalendarView.tsx:98-117 | No two cells share a date |
| Calendar.MonthInGrid | src/components/CalendarView.tsx:89-119 | Every day of the displayed month has a cell |
| Calendar.Eligible | src/components/CalendarView.tsx:318-319 | Exactly the tasks with a readable date that are pending, due at or after now, and through the filters |
| Calendar.EligibleConcat | src/components/CalendarView.tsx:318-319 | Selection distributes over concatenation, so the eligible tasks keep their list order |
| Calendar.Upcoming | src/components/CalendarView.tsx:318-321 | At most three eligible tasks, earliest first, a sub-multiset of the eligible ones. None left out is due before the last one shown |
| Calendar.UpcomingKeepsListOrder | src/components/CalendarView.tsx:318-321 | Tasks due at the same moment are shown in list order: those shown are the first eligible ones due then |
| Calendar.EarliestThree | src/components/CalendarView.tsx:320-321 | The sort by time and the cut to three keep a sub-multiset of the input, earliest first, and nothing left out is due before the third one kept |
| Calendar.CreatedTask | src/components/CalendarView.tsx:134-137 | A created task has a non-empty trimmed title and is due on the form's date. It is pending with 50 points and no group. Its subject is present exactly when one was chosen |
| Calendar.CreatedOnClickedDay | src/components/CalendarView.tsx:125-137 | A task created after clicking a day shows in that day's cell, when `toISOString` gives the clicked local day (true at a UTC offset of zero or less) |
| Calendar.CalendarView.constructor | src/components/CalendarView.tsx:39-62 | Today's month, nothing selected, an empty closed form, every filter off |
| Calendar.CalendarView.GetMonthData | src/components/CalendarView.tsx:89-119 | 42 cells for consecutive days from `GridStart`, each built from its own day |
| Calendar.CalendarView.GoToPreviousMonth | src/components/CalendarView.tsx:123 | The 1st of the previous month is displayed. The selection, the filters, the form and the dialog stay |
| Calendar.CalendarView.GoToNextMonth | src/components/CalendarView.tsx:124 | The 1st of the next month is displayed. The selection, the filters, the form and the dialog stay |
| Calendar.CalendarView.GoToToday | src/components/CalendarView.tsx:198 | Today is displayed. The selection, the filters, the form and the dialog stay |
| Calendar.CalendarView.HandleDateClick | src/components/CalendarView.tsx:125-129 | The day becomes selected, the due date is set to its key, and the form opens |
| Calendar.CalendarView.SetFilterMateria | src/components/CalendarView.tsx:276 | Only the subject filter changes: the displayed month, the selection, the form and the dialog stay |
| Calendar.CalendarView.SetMateria | src/components/CalendarView.tsx:166 | Only the form's subject changes: the displayed month, the selection, the filters and the dialog stay |
| Calendar.CalendarView.HandleCreateTask | src/components/CalendarView.tsx:134-140 | Without a title or a date nothing changes. Otherwise `FormInput` is added, only the tasks key of storage is rewritten with the new list, and the form is cleared and closed |
| Gamification.GroupTasks | src/components/GamificationView.tsx:48 | Exactly the tasks of the group |
| Gamification.GroupTasksSnoc | src/components/GamificationView.tsx:44-55 | A task added to the group shows last. Any other task leaves the list unchanged |
| Gamification.GroupTasksWithout | src/components/GamificationView.tsx:44-55 | Deleting a task removes it from its group's list |
| Gamification.Reselected | src/components/GamificationView.tsx:96-109 | The four cases of the selection effect |
| Gamification.ReselectedFacts | src/components/GamificationView.tsx:96-109 | Afterwards a group is selected exactly when there are groups, the selection is listed, and the effect is idempotent |
| Gamification.CreatedGroup | src/components/GamificationView.tsx:58-66 | A created group has a trimmed non-blank name and key, the mock creator, and no tasks |
| Gamification.AssignedTask | src/components/GamificationView.tsx:82-89 | An assigned task belongs to the selected group, is pending with 50 points, and shows last in the group's list |
| Gamification.GamificationView.constructor | src/components/GamificationView.tsx:28-41 | Nothing selected, and every dialog closed and empty |
| Gamification.GamificationView.Resync | src/components/GamificationView.tsx:44-55 | The selected group's tasks become the store's tasks of that group. The three dialogs and their forms stay |
| Gamification.GamificationView.SelectionEffect | src/components/GamificationView.tsx:96-109 | The selection becomes `Reselected(old, myGroups)`. The three dialogs and their forms stay |
| Gamification.GamificationView.HandleCreateGroup | src/components/GamificationView.tsx:58-69 | A blank name or key changes nothing. Otherwise the group is added first, only the groups key of storage is rewritten, and the dialog is cleared and closed. The other two dialogs stay as they were |
| Gamification.GamificationView.HandleJoinGroup | src/components/GamificationView.tsx:72-79 | The dialog is cleared and closed exactly when both fields are filled and the trimmed join succeeds. Groups never change, nor do the other two dialogs |
| Gamification.GamificationView.HandleAssignTask | src/components/GamificationView.tsx:82-93 | Without a title or a selection nothing changes. Otherwise the task is added, only the tasks key of storage is rewritten, and the dialog is cleared and closed. The other two dialogs stay as they were |
| Subjects.SubjectOf | src/components/SubjectNavigator.tsx:26 | A subject is collected, untrimmed, only when it is present and non-empty |
| Subjects.SubjectsOfUnique | src/components/SubjectNavigator.tsx:23-29 | Exactly one list is the sorted distinct subjects |
| Subjects.TasksForSubject | src/components/SubjectNavigator.tsx:32 | Exactly the tasks with the selected subject. None when nothing is selected |
| Subjects.TasksForSubjectSnoc | src/components/SubjectNavigator.tsx:32 | A task with the selected subject shows last. Any other task leaves the list unchanged |
| Subjects.AddedToSubject | src/components/SubjectNavigator.tsx:48-72 | An added task carries the subject, is pending with 50 points, shows last, and keeps the subject listed |
| Subjects.SubjectNavigator.constructor | src/components/SubjectNavigator.tsx:13-20 | No subjects, nothing selected, empty inputs |
| Subjects.SubjectNavigator.DeriveSubjects | src/components/SubjectNavigator.tsx:23-29 | The list becomes the distinct non-empty subjects of the tasks, strictly increasing |
| Subjects.SubjectNavigator.HandleAddSubject | src/components/SubjectNavigator.tsx:35-45 | A blank or listed name only clears the input. Otherwise the trimmed name joins a re-sorted list and becomes selected. Strict order is kept |
| Subjects.SubjectNavigator.HandleAddTaskToSubject | src/components/SubjectNavigator.tsx:48-72 | Without a title or a subject nothing changes. Otherwise the task is added with the subject, only the tasks key of storage is rewritten, and the inputs are cleared |
| Subjects.AppendFresh | src/components/SubjectNavigator.tsx:37-41 | Appending a name not yet listed keeps the list free of duplicates |
| TasksScreen.EditedTask | src/components/TasksView.tsx:24-31 | Saving an edit replaces the four texts and the priority. It keeps id, completion, points and group |
| TasksScreen.AddedTask | src/components/TasksView.tsx:34-43 | A task added from the form has the store's id, not the form's uuid, and no priority. It keeps the texts as typed |
| TasksScreen.FindTask | src/components/TasksView.tsx:54 | The index of the first task with the id, or none when no task has it |
| TasksScreen.SaveUntouchedEdit | src/components/TasksView.tsx:21-63 | Editing then saving unchanged gives the list back. An exception: missing texts come back as `""` and a missing priority as "media" |
| TasksScreen.TasksView.constructor | src/components/TasksView.tsx:12-19 | An empty form in add mode with medium priority |
| TasksScreen.TasksView.HandleAddOrUpdate | src/components/TasksView.tsx:21-51 | A blank title does nothing. In edit mode the task is updated and edit mode ends; otherwise a task is added. Either way only the tasks key of storage is rewritten with the new list, the texts are cleared and the priority stays |
| TasksScreen.TasksView.HandleEdit | src/components/TasksView.tsx:53-63 | An unknown id changes nothing. Otherwise the form is filled from the first task with the id and edit mode starts |
| TasksScreen.TasksView.Cancel | src/components/TasksView.tsx:119 | Edit mode ends and the texts stay |

## Left out

- Generated ids are parameters (`freshId`, `uuid`, `stamp`): `Date.now()`, `Math.random()`, `uuidv4()` and `crypto.randomUUID()`. Operations do not require them to be fresh. Uniqueness of ids is proved under a freshness assumption in `Tasks.OperationsKeepIdsUnique`.
- Toasts, console logging, `onSuccess` callbacks and page navigation are left out. They do not change any modelled state.
- `JSON.stringify` and `JSON.parse` are abstract codecs, and lemmas assume only their round-trip law. A failing `setItem` (a full quota) is not modelled.
- Participants: a stored value that parses to something other than an array (an object, say) would be adopted as the list by the source. The typed model cannot hold such a value, so it keeps the empty list.
- React rendering order is not modelled: effects are methods the caller runs in order. So are repeated renders and the `useMemo` dependency lists.
- Gamification.GamificationView.Resync: the `JSON.stringify` comparison is modelled as value equality on the task list.
- Clicking a group in the list (src/components/GamificationView.tsx:160) and a subject (src/components/SubjectNavigator.tsx:93) only sets the selection. These setters are not modelled separately.
- The "assign task" button is shown only to the group's creator (src/components/GamificationView.tsx:181). `HandleAssignTask` itself does not check this, and neither does the model.
- Analytics.Initials: strings are sequences of Unicode characters, so `Head` takes a whole character. For a word starting with a character outside the Basic Multilingual Plane (an emoji, say), the source's `s[0]` is a lone UTF-16 surrogate, which the model cannot represent.
- Calendar.CalendarView.GetMonthData: `new Date(year, month, 1)` (src/components/CalendarView.tsx:92) reads a year in 0..99 as 1900 + year. The model builds the grid of the displayed year as it is. The two differ only once the calendar has been paged back below the year 100.
- Calendar.CalendarView.GoToPreviousMonth: `new Date(prev.getFullYear(), prev.getMonth() - 1)` (src/components/CalendarView.tsx:123) reads a year in 0..99 as 1900 + year, so from December of year 99 the source moves to November 1999. The model moves back exactly one month, whatever the year.
- Calendar.CalendarView.GoToNextMonth: `new Date(prev.getFullYear(), prev.getMonth() + 1)` (src/components/CalendarView.tsx:124) has the same reading, so from a month of a year in 0..99 the source moves into 1900..2000. The model moves forward exactly one month, whatever the year.
- String order: `localeCompare(b, 'es')` and the default `sort()` are both modelled as lexicographic order on characters. Accent-aware collation and UTF-16 code-unit order for characters outside the Basic Multilingual Plane are not modelled.
- Common.ToLower: only Basic Latin and Latin-1 capitals are lowered. Other scripts are kept as they are.
- Common.IsBlank: white space is the ECMAScript set listed in `IsSpace`.
- Dates and time zones:
  - Dates are civil dates, with no time of day or time zone.
  - `toISOString()` (UTC) is taken to give the local calendar day.
  - The upcoming list compares local midnight with "now" in milliseconds.
- Calendar.TaskDate: `new Date(text)` is an abstract parser. The model assumes only that it reads `YYYY/MM/DD` texts as that day (`ReadsSlashDates`).
- Analytics.TasksPerDay requires today's year to be in 1..9999. Outside that range `toISOString` writes extended years, which the model does not represent.
- Calendar.CalendarView.HandleDateClick requires a year in 0..9999 for the same reason.
- Analytics.DueKey:
  - A `YYYY-MM-DD` due date is read by the model's own parser; other texts that the browser's `Date` would accept get no key.
  - A `dd/mm/yyyy` date is rewritten without checking that the day exists, as in the source.
- Analytics.CountSubjects: `Object.entries` lists integer-like keys first, in numeric order. The model keeps every label in first-seen order.
- Analytics.CountSubjects: `counts` is a plain object, so a label that names an `Object.prototype` member (`constructor`, `toString`, `valueOf`, `__proto__`) starts from the inherited value rather than from nothing, and `__proto__` is not stored as an own key. The model treats every label as a fresh key; `Analytics.TasksBySubject` inherits this.
- Calendar.CreatedOnClickedDay: `handleDateClick` writes `date.toISOString().split('T')[0]` (src/components/CalendarView.tsx:125-129) for a local-midnight date. At a positive UTC offset that is the day before the clicked one, so the task lands on the previous day. The model reads `toISOString` as the local day, and the lemma holds only under that reading.
- Calendar state the core does not compute with is not modelled: the month/week/day `view` switch, the sidebar list for the selected day, and `handleTaskDrop` (it only logs).
- Screen forms are bundled into one datatype field per form (`TaskForm`, `GroupForm`, and so on). A per-field `onChange` setter is a plain field assignment and is not modelled separately; the select handlers that map a value are modelled (`SetMateria`, `SetFilterMateria`).
- Other screens, such as the dashboard, profile, notifications, landing page and navigation, are not part of this model.
