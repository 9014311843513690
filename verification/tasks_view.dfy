/** The task list screen (`TasksView`): one form that either adds a task or,
    after "edit" was pressed on a card, updates that task; the form is
    filled from the task when editing starts. */
module TasksScreen {
  import opened Common
  import opened Tasks

  /** The priority shown for a task that has none. */
  const DEFAULT_PRIORITY := "media"

  /** The four text inputs of the form (the priority select is kept apart
      because submitting does not clear it). */
  datatype TaskFields = TaskFields(title: string, description: string, materia: string, fechaEntrega: string)

  const EmptyFields := TaskFields("", "", "", "")

  /** The patch the form sends in edit mode: the four texts as typed (not
      trimmed, empty ones included) and the priority. */
  function EditPatch(f: TaskFields, prioridad: string): TaskPatch {
    TaskPatch(Some(f.title), Some(f.description), Some(f.materia), Some(f.fechaEntrega),
              None, None, None, Some(prioridad))
  }

  /** What the form sends in add mode: the texts as typed, a random id, the
      priority, pending and 50 points. */
  function AddInput(f: TaskFields, prioridad: string, uuid: string): TaskInput {
    TaskInput(f.title, Some(f.description), Some(f.materia), Some(f.fechaEntrega), None,
              Some(false), Some(50), Some(uuid), Some(prioridad))
  }

  /** `editingId` is truthy: present and not the empty string. */
  predicate Editing(editingId: Option<string>) {
    editingId.Some? && editingId.value != ""
  }

  /** Saving an edit replaces the four texts and the priority and keeps the
      id, the completion flag, the points and the group. */
  lemma EditedTask(t: Task, f: TaskFields, prioridad: string)
    ensures var r := Merge(t, EditPatch(f, prioridad));
            r.id == t.id && r.completada == t.completada && r.points == t.points && r.groupId == t.groupId
            && r.title == f.title && r.description == Some(f.description) && r.materia == Some(f.materia)
            && r.fechaEntrega == Some(f.fechaEntrega) && r.prioridad == Some(prioridad)
  {
  }

  /** A task added from the form has the store's fresh id rather than the
      form's random one, no priority, is pending with 50 points, and keeps
      the texts as typed, empty ones as empty strings. */
  lemma AddedTask(f: TaskFields, prioridad: string, uuid: string, freshId: string)
    ensures var t := NewTask(AddInput(f, prioridad, uuid), freshId);
            t.id == freshId && t.prioridad == None && !t.completada && t.points == 50
            && t.title == f.title && t.description == Some(f.description)
            && t.materia == Some(f.materia) && t.fechaEntrega == Some(f.fechaEntrega)
            && t.groupId == None
  {
  }

  /** `tasks.find(task => task.id === id)`: the index of the first task
      with that id. */
  function FindTask(tasks: seq<Task>, id: string): (r: Option<nat>)
    ensures r.Some? ==> r.value < |tasks| && tasks[r.value].id == id
    ensures r.Some? ==> forall j :: 0 <= j < r.value ==> tasks[j].id != id
    ensures r.None? <==> forall t :: t in tasks ==> t.id != id
  {
    if tasks == [] then None
    else if tasks[0].id == id then Some(0)
    else
      var rest := FindTask(tasks[1..], id);
      assert tasks == [tasks[0]] + tasks[1..];
      if rest.Some? then Some(rest.value + 1) else None
  }

  /** What `handleEdit` loads: the texts of the task, "" for a missing
      one. */
  function FieldsOf(t: Task): TaskFields {
    TaskFields(t.title, t.description.GetOr(""), t.materia.GetOr(""), t.fechaEntrega.GetOr(""))
  }

  /** Editing a task and saving without touching the form gives the list
      back unchanged when ids are unique and the task has every optional
      text and a priority; a missing text comes back as "" and a missing
      priority as "media". */
  lemma SaveUntouchedEdit(tasks: seq<Task>, i: nat)
    requires UniqueIds(tasks) && i < |tasks|
    ensures var t := tasks[i];
            var r := Updated(tasks, t.id, EditPatch(FieldsOf(t), t.prioridad.GetOr(DEFAULT_PRIORITY)));
            |r| == |tasks|
            && (forall j :: 0 <= j < |tasks| && j != i ==> r[j] == tasks[j])
            && r[i] == t.(description := Some(t.description.GetOr("")),
                          materia := Some(t.materia.GetOr("")),
                          fechaEntrega := Some(t.fechaEntrega.GetOr("")),
                          prioridad := Some(t.prioridad.GetOr(DEFAULT_PRIORITY)))
    ensures var t := tasks[i];
            t.description.Some? && t.materia.Some? && t.fechaEntrega.Some? && t.prioridad.Some? ==>
              Updated(tasks, t.id, EditPatch(FieldsOf(t), t.prioridad.value)) == tasks
  {
    var t := tasks[i];
    var r := Updated(tasks, t.id, EditPatch(FieldsOf(t), t.prioridad.GetOr(DEFAULT_PRIORITY)));
    forall j | 0 <= j < |tasks| && j != i ensures r[j] == tasks[j] {
      if j < i {
        assert tasks[j].id != tasks[i].id;
      } else {
        assert tasks[i].id != tasks[j].id;
      }
    }
  }

  class TasksView {
    var fields: TaskFields
    var prioridad: string
    var editingId: Option<string>
    const store: TaskStore

    /** First render: an empty form in add mode with medium priority. */
    constructor (store: TaskStore)
      ensures this.store == store
      ensures fields == EmptyFields && prioridad == DEFAULT_PRIORITY && editingId == None
    {
      this.store := store;
      fields := EmptyFields;
      prioridad := DEFAULT_PRIORITY;
      editingId := None;
    }

    /** `handleAddOrUpdate`: a blank title does nothing. In edit mode the
        task being edited is updated and edit mode ends; otherwise one task
        is added. Either way the four texts are cleared and the priority
        stays. */
    method HandleAddOrUpdate(uuid: string, freshId: string)
      modifies this, store, store.storage
      ensures IsBlank(old(fields).title) ==>
                store.tasks == old(store.tasks) && store.storage.entries == old(store.storage.entries)
                && fields == old(fields) && editingId == old(editingId)
      ensures !IsBlank(old(fields).title) && Editing(old(editingId)) ==>
                store.tasks == Updated(old(store.tasks), old(editingId).value, EditPatch(old(fields), old(prioridad)))
                && editingId == None
      ensures !IsBlank(old(fields).title) && !Editing(old(editingId)) ==>
                store.tasks == old(store.tasks) + [NewTask(AddInput(old(fields), old(prioridad), uuid), freshId)]
                && editingId == old(editingId)
      ensures !IsBlank(old(fields).title) ==>
                store.storage.entries == old(store.storage.entries)[TASKS_KEY := store.json.stringify(store.tasks)]
                && store.Saved() && fields == EmptyFields
      ensures prioridad == old(prioridad)
    {
      if IsBlank(fields.title) {
        return;
      }
      if Editing(editingId) {
        store.UpdateTask(editingId.value, EditPatch(fields, prioridad));
        editingId := None;
      } else {
        store.AddTask(AddInput(fields, prioridad, uuid), freshId);
      }
      fields := EmptyFields;
    }

    /** `handleEdit`: an unknown id changes nothing; otherwise the form is
        filled from the first task with that id and edit mode starts. */
    method HandleEdit(id: string)
      modifies this
      ensures FindTask(store.tasks, id).None? ==>
                fields == old(fields) && prioridad == old(prioridad) && editingId == old(editingId)
      ensures FindTask(store.tasks, id).Some? ==>
                var t := store.tasks[FindTask(store.tasks, id).value];
                fields == FieldsOf(t) && prioridad == t.prioridad.GetOr(DEFAULT_PRIORITY)
                && editingId == Some(id)
    {
      var found := FindTask(store.tasks, id);
      if found.Some? {
        var t := store.tasks[found.value];
        fields := FieldsOf(t);
        prioridad := t.prioridad.GetOr(DEFAULT_PRIORITY);
        editingId := Some(t.id);
      }
    }

    /** The "Cancelar" button: edit mode ends, the form keeps its texts. */
    method Cancel()
      modifies this
      ensures editingId == None && fields == old(fields) && prioridad == old(prioridad)
    {
      editingId := None;
    }
  }
}
