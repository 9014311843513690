/** The subjects screen (`SubjectNavigator`): the subject list derived from
    the tasks, subjects added by hand, the tasks of the selected subject,
    and the form that adds a task to it. */
module Subjects {
  import opened Common
  import opened Ordering
  import opened Tasks

  // ---------------------------------------------------------------------
  // The derived subject list
  // ---------------------------------------------------------------------

  /** `if (t.materia) s.add(t.materia)`: a present, non-empty subject, as
      it is (no trimming). */
  function SubjectOf(t: Task): (m: Option<string>)
    ensures m.Some? <==> t.materia.Some? && t.materia.value != ""
    ensures m.Some? ==> t.materia == m
  {
    if t.materia.Some? && t.materia.value != "" then t.materia else None
  }

  /** Holds of the one list the derivation effect can produce: the distinct
      non-empty subjects of the tasks in increasing order. */
  ghost predicate SubjectsOf(tasks: seq<Task>, subjects: seq<string>) {
    StrictlySorted(subjects)
    && forall m :: m in subjects <==> exists t :: t in tasks && t.materia == Some(m) && m != ""
  }

  /** At most one list satisfies `SubjectsOf`. */
  lemma SubjectsOfUnique(tasks: seq<Task>, a: seq<string>, b: seq<string>)
    requires SubjectsOf(tasks, a) && SubjectsOf(tasks, b)
    ensures a == b
  {
    StrictlySortedUnique(a, b);
  }

  // ---------------------------------------------------------------------
  // The selected subject's tasks
  // ---------------------------------------------------------------------

  function OfSubject(selected: Option<string>): Task -> bool {
    (t: Task) => selected.Some? && t.materia == selected
  }

  /** `tasks.filter(t => t.materia === selectedSubject)`: with nothing
      selected (`null`) no task matches, a task without subject included. */
  function TasksForSubject(tasks: seq<Task>, selected: Option<string>): (r: seq<Task>)
    ensures |r| <= |tasks|
    ensures forall t :: t in r <==> t in tasks && selected.Some? && t.materia == selected
    ensures selected.None? ==> r == []
  {
    if selected.None? then
      FilterDropsAll(tasks, OfSubject(selected));
      Filter(tasks, OfSubject(selected))
    else
      Filter(tasks, OfSubject(selected))
  }

  /** A task added with the selected subject shows last in that subject's
      list; a task with another subject leaves the list as it was. */
  lemma TasksForSubjectSnoc(tasks: seq<Task>, t: Task, selected: Option<string>)
    ensures selected.Some? && t.materia == selected ==>
              TasksForSubject(tasks + [t], selected) == TasksForSubject(tasks, selected) + [t]
    ensures t.materia != selected ==>
              TasksForSubject(tasks + [t], selected) == TasksForSubject(tasks, selected)
  {
    FilterConcat(tasks, [t], OfSubject(selected));
    FilterOne(t, OfSubject(selected));
  }

  // ---------------------------------------------------------------------
  // The task form
  // ---------------------------------------------------------------------

  datatype SubjectTaskForm = SubjectTaskForm(title: string, description: string, date: string)

  const EmptySubjectTaskForm := SubjectTaskForm("", "", "")

  /** `!selectedSubject`: no subject, or the empty one. */
  predicate HasSubject(selected: Option<string>) {
    selected.Some? && selected.value != ""
  }

  /** The task handed to `addTask`: title and description trimmed, an empty
      description or date left out, the selected subject attached. */
  function SubjectTaskInput(f: SubjectTaskForm, subject: string): TaskInput {
    TaskInput(Trim(f.title), if Trim(f.description) == "" then None else Some(Trim(f.description)),
              Some(subject), if f.date == "" then None else Some(f.date), None,
              None, None, None, None)
  }

  /** A task added from the form carries the selected subject, is pending
      with 50 points and a non-empty trimmed title, shows last in the
      subject's list, and keeps the subject in the derived list. */
  lemma AddedToSubject(f: SubjectTaskForm, subject: string, tasks: seq<Task>, freshId: string)
    requires !IsBlank(f.title) && subject != ""
    ensures var t := NewTask(SubjectTaskInput(f, subject), freshId);
            t.materia == Some(subject) && t.groupId == None
            && !t.completada && t.points == 50
            && t.title != "" && Trim(t.title) == t.title
            && TasksForSubject(tasks + [t], Some(subject)) == TasksForSubject(tasks, Some(subject)) + [t]
            && SubjectOf(t) == Some(subject)
  {
    TrimIdempotent(f.title);
    TasksForSubjectSnoc(tasks, NewTask(SubjectTaskInput(f, subject), freshId), Some(subject));
  }

  // ---------------------------------------------------------------------
  // The view
  // ---------------------------------------------------------------------

  class SubjectNavigator {
    var subjects: seq<string>
    var newSubject: string
    var selectedSubject: Option<string>
    var form: SubjectTaskForm
    const store: TaskStore

    /** First render, before the derivation effect: no subjects, nothing
        selected, empty inputs. */
    constructor (store: TaskStore)
      ensures this.store == store
      ensures subjects == [] && newSubject == "" && selectedSubject == None
      ensures form == EmptySubjectTaskForm
    {
      this.store := store;
      subjects := [];
      newSubject := "";
      selectedSubject := None;
      form := EmptySubjectTaskForm;
    }

    /** The derivation effect, run whenever the tasks change: the subject
        list becomes the distinct non-empty subjects of the tasks, sorted.
        Subjects added by hand and used by no task are dropped. */
    method DeriveSubjects()
      modifies this
      ensures SubjectsOf(store.tasks, subjects)
      ensures newSubject == old(newSubject) && selectedSubject == old(selectedSubject) && form == old(form)
    {
      var seen := CollectKeys(store.tasks, SubjectOf);
      subjects := SortStrings(seen);
      SortedCollected(store.tasks, SubjectOf, seen, subjects);
    }

    /** `handleAddSubject`: a blank name or one already listed only clears
        the input; otherwise the trimmed name joins the list, the list is
        sorted again, and the new subject becomes the selected one. */
    method HandleAddSubject()
      modifies this
      ensures var s := Trim(old(newSubject));
              if s == "" || s in old(subjects) then
                subjects == old(subjects) && selectedSubject == old(selectedSubject)
              else
                StrSorted(subjects) && multiset(subjects) == multiset(old(subjects)) + multiset{s}
                && selectedSubject == Some(s)
      ensures newSubject == "" && form == old(form)
      ensures StrictlySorted(old(subjects)) ==> StrictlySorted(subjects)
    {
      var trimmed := Trim(newSubject);
      if trimmed == "" || trimmed in subjects {
        newSubject := "";
        return;
      }
      var grown := subjects + [trimmed];
      if StrictlySorted(subjects) {
        AppendFresh(subjects, trimmed);
        SortStringsStrict(grown);
      }
      subjects := SortStrings(grown);
      selectedSubject := Some(trimmed);
      newSubject := "";
    }

    /** `handleAddTaskToSubject`: without a title or a subject nothing
        happens; otherwise the task is added to the store with the selected
        subject and the three inputs are cleared. */
    method HandleAddTaskToSubject(freshId: string)
      modifies this, store, store.storage
      ensures IsBlank(old(form).title) || !HasSubject(old(selectedSubject)) ==>
                store.tasks == old(store.tasks) && store.storage.entries == old(store.storage.entries)
                && form == old(form)
      ensures !IsBlank(old(form).title) && HasSubject(old(selectedSubject)) ==>
                store.tasks == old(store.tasks) + [NewTask(SubjectTaskInput(old(form), old(selectedSubject).value), freshId)]
                && store.storage.entries == old(store.storage.entries)[TASKS_KEY := store.json.stringify(store.tasks)]
                && store.Saved() && form == EmptySubjectTaskForm
      ensures subjects == old(subjects) && selectedSubject == old(selectedSubject) && newSubject == old(newSubject)
    {
      if IsBlank(form.title) || !HasSubject(selectedSubject) {
        return;
      }
      store.AddTask(SubjectTaskInput(form, selectedSubject.value), freshId);
      form := EmptySubjectTaskForm;
    }
  }

  /** Appending a string not yet in a duplicate-free list keeps it free of
      duplicates. */
  lemma AppendFresh(s: seq<string>, x: string)
    requires NoDup(s) && x !in s
    ensures NoDup(s + [x])
  {
    var r := s + [x];
    forall i, j | 0 <= i < j < |r| ensures r[i] != r[j] {
      if j == |s| {
        assert r[i] == s[i];
      }
    }
  }
}
